/** The leaf part of `insert` and `del`: slot selection, compaction, split, and the stores and flushes they issue. */
module LeafOps {
  import opened Types
  import opened LeafNode
  import opened Nvm

  /** In every state of the trace a crash shows the leaf as `y` or as `z`. */
  ghost predicate AllSafe(tr: seq<Cell>, y: Leaf, z: Leaf) {
    forall i :: 0 <= i < |tr| ==> CellSafe(tr[i], y, z)
  }

  lemma {:induction false} SafeEither(k: Cell, y: Leaf, z: Leaf)
    requires CellSafe(k, y, y) && LeafOk(z)
    ensures CellSafe(k, y, z) && CellSafe(k, z, y)
  {
  }

  // ---------------------------------------------------------------- pure steps

  /** The leaf with one more entry in the free slot `i`. */
  function AddEntry(x: Leaf, i: nat, e: IdxEntry): Leaf
    requires x.Shape() && i < LEAF_KEY_NUM
  {
    Leaf(x.m.(bitmap := x.m.bitmap[i := true], fgpt := x.m.fgpt[i := hashcode1B(e.k)]), x.ent[i := e], x.next)
  }

  lemma {:induction false} AddEntryOk(x: Leaf, i: nat, e: IdxEntry)
    requires LeafOk(x) && i < LEAF_KEY_NUM && !x.m.bitmap[i] && !HasKey(Entries(x), e.k)
    ensures LeafOk(AddEntry(x, i, e)) && Entries(AddEntry(x, i, e)) == Entries(x) + {e}
  {
    var z := AddEntry(x, i, e);
    forall j | 0 <= j < LEAF_KEY_NUM && x.m.bitmap[j] ensures x.ent[j].k != e.k { assert x.ent[j] in Entries(x); }
    forall f | f in Entries(x) + {e} ensures f in Entries(z) {
      if f == e { assert z.ent[i] == e; } else {
        var j :| 0 <= j < LEAF_KEY_NUM && x.m.bitmap[j] && x.ent[j] == f;
        assert z.ent[j] == f;
      }
    }
  }

  /** The leaf with the entry of slot `i` moved to the free slot `j`. */
  function MoveEntry(x: Leaf, i: nat, j: nat): Leaf
    requires x.Shape() && i < LEAF_KEY_NUM && j < LEAF_KEY_NUM
  {
    Leaf(x.m.(bitmap := x.m.bitmap[j := true][i := false], fgpt := x.m.fgpt[j := x.m.fgpt[i]]), x.ent[j := x.ent[i]], x.next)
  }

  lemma {:induction false} MoveEntryOk(x: Leaf, i: nat, j: nat)
    requires LeafOk(x) && i < LEAF_KEY_NUM && j < LEAF_KEY_NUM && x.m.bitmap[i] && !x.m.bitmap[j]
    ensures LeafOk(MoveEntry(x, i, j)) && Entries(MoveEntry(x, i, j)) == Entries(x)
  {
    var z := MoveEntry(x, i, j);
    forall f | f in Entries(x) ensures f in Entries(z) {
      var k :| 0 <= k < LEAF_KEY_NUM && x.m.bitmap[k] && x.ent[k] == f;
      assert k != i ==> z.m.bitmap[k] && z.ent[k] == f;
      assert z.ent[j] == x.ent[i] && z.m.bitmap[j];
    }
    forall f | f in Entries(z) ensures f in Entries(x) {
      var k :| 0 <= k < LEAF_KEY_NUM && z.m.bitmap[k] && z.ent[k] == f;
      assert x.ent[i] in Entries(x);
    }
  }

  // ---------------------------------------------------------------- store sequences

  /** `lp->k(i) = key; lp->ch(i) = ptr` into a slot that is free in the persistent version `y` */
  method WriteEntry(k: Cell, i: nat, e: IdxEntry, ghost y: Leaf, ghost safe: bool) returns (k': Cell, ghost tr: seq<Cell>)
    requires k.Shape() && LeafOk(y) && i < LEAF_KEY_NUM && !y.m.bitmap[i]
    requires safe ==> CellSafe(k, y, y)
    ensures k'.Shape() && k'.low == k.low && k'.wb == k.wb && |k'.h| > |k.h|
    ensures k'.Now() == WithEnt(k.Now(), i, e) && Steps(k, tr, k')
    ensures safe ==> CellSafe(k', y, y) && AllSafe(tr, y, y)
  {
    hide Event, Steps, OneWord;
    KeyIs(k.Now(), i, e.k);
    var k1 := Store(k, WithKey(k.Now(), i, e.k));
    ChIs(k1.Now(), i, e.ch);
    k' := Store(k1, WithCh(k1.Now(), i, e.ch));
    tr := [k1] + [k'];
    OneStep(k, k1);
    StepsMore(k, [k1], k1, k');
    assert k'.Now().ent == k.Now().ent[i := e];
    if safe {
      FreeSlotStore(k, y, i, k1.Now());
      FreeSlotStore(k1, y, i, k'.Now());
    }
  }

  /** A store to a slot that is free in `y` */
  lemma {:induction false} FreeSlotStore(k: Cell, y: Leaf, i: nat, x: Leaf)
    requires CellSafe(k, y, y) && i < LEAF_KEY_NUM && !y.m.bitmap[i]
    requires x.Shape() && x.m == k.Now().m && x.next == k.Now().next
    requires forall j :: 0 <= j < LEAF_KEY_NUM && j != i ==> x.ent[j] == k.Now().ent[j]
    ensures CellSafe(Append(k, x), y, y)
  {
    NowLike(k, y);
    AppendLike(k, x, y);
  }

  /** `clwb` of line `c` and `sfence`, while the leaf's persistent version is `y` or `z` */
  method Flush(k: Cell, c: nat, ghost y: Leaf, ghost z: Leaf, ghost safe: bool) returns (k': Cell, ghost tr: seq<Cell>)
    requires k.Shape() && c < LINES
    requires safe ==> CellSafe(k, y, z)
    ensures k' == Fence(WriteBack(k, c)) && k'.Shape() && k'.Now() == k.Now() && Steps(k, tr, k')
    ensures safe ==> CellSafe(k', y, z) && AllSafe(tr, y, z)
  {
    hide Event, Steps;
    var k1 := Clwb(k, c);
    k' := Sfence(k1);
    tr := [k1] + [k'];
    OneStep(k, k1);
    StepsMore(k, [k1], k1, k');
    if safe {
      WriteBackSafe(k, c, y, z);
      FenceSafe(k1, y, z);
    }
  }

  /** After line `c` is flushed its window shows the current state only. */
  lemma {:induction false} FlushedWindow(k: Cell, c: nat, z: Leaf)
    requires k.Shape() && c < LINES && Like(c, k.Now(), z)
    ensures Window(Fence(WriteBack(k, c)), c, z)
  {
  }

  lemma {:induction false} OtherWindow(k: Cell, c: nat, d: nat, z: Leaf)
    requires k.Shape() && c < LINES && d < LINES && Window(k, d, z)
    ensures Window(Fence(WriteBack(k, c)), d, z)
  {
  }

  /** Lines whose visible part `z` shares with `y` look like `z` when they look like `y`. */
  lemma {:induction false} WindowCarry(k: Cell, c: nat, y: Leaf, z: Leaf)
    requires k.Shape() && c < LINES && c != 0 && Window(k, c, y) && y.Shape() && z.Shape()
    requires forall i :: 0 <= i < LEAF_KEY_NUM && LineOf(i) == c && z.m.bitmap[i] ==> y.m.bitmap[i] && z.ent[i] == y.ent[i]
    requires c == 3 ==> z.m.alt == y.m.alt && z.next[z.m.alt] == y.next[y.m.alt]
    ensures Window(k, c, z)
  {
  }

  /**
   * `setWord0(&meta); clwb(lp); sfence();` or, with `both`, `setBothWords(&meta); clwb(lp); sfence();`.
   * The second store is the commit point: it switches the persistent version from `y` to the new header's.
   */
  method Commit(k: Cell, meta: Meta, both: bool, ghost y: Leaf, ghost safe: bool) returns (k': Cell, ghost tr: seq<Cell>)
    requires k.Shape() && MetaShape(meta) && LeafOk(k.Now().(m := meta))
    requires !both ==> meta.fgpt[6..] == k.Now().m.fgpt[6..]
    requires safe ==> var z := k.Now().(m := meta);
      && CellSafe(k, y, y) && RestLike(k, z)
      && Like(1, z, y) && Like(2, z, y) && Like(3, z, y)
      && (forall i :: 0 <= i < LEAF_KEY_NUM && y.m.bitmap[i] ==> meta.fgpt[i] == y.m.fgpt[i])
    ensures k'.Shape() && k'.wb == k'.low && k'.Now() == k.Now().(m := meta) && Steps(k, tr, k')
    ensures safe ==> Quiet(k')
    ensures safe ==> AllSafe(tr, y, k'.Now())
  {
    hide Event, OneWord;
    ghost var z := k.Now().(m := meta);
    var k1 := k;
    tr := [];
    if both {
      WordOneIs(k.Now(), meta);
      k1 := Store(k, WithWord1(k.Now(), meta));
      tr := [k1];
      OneStep(k, k1);
      if safe { WordOneStore(k, meta, y, z); }
    }
    assert k1.Now().m.fgpt[6..] == meta.fgpt[6..];
    WordZeroIs(k1.Now(), meta);
    var k2 := Store(k1, WithWord0(k1.Now(), meta));
    StepsMore(k, tr, k1, k2);
    hide Steps;
    assert meta.fgpt == meta.fgpt[..6] + meta.fgpt[6..];
    assert k2.Now() == z;
    if safe { AppendSwitch(k1, z, y); }
    ghost var tr2;
    k', tr2 := Flush(k2, 0, y, z, safe);
    StepsJoin(k, tr + [k2], k2, tr2, k');
    tr := tr + [k2] + tr2;
    if safe { CommitDone(k2, z); }
  }

  lemma {:induction false} WordOneStore(k: Cell, meta: Meta, y: Leaf, z: Leaf)
    requires CellSafe(k, y, y) && MetaShape(meta) && z == k.Now().(m := meta) && LeafOk(z) && RestLike(k, z)
    requires forall i :: 0 <= i < LEAF_KEY_NUM && y.m.bitmap[i] ==> meta.fgpt[i] == y.m.fgpt[i]
    ensures var k1 := Append(k, WithWord1(k.Now(), meta));
      CellSafe(k1, y, y) && CellSafe(k1, y, z) && RestLike(k1, z)
  {
    var x := WithWord1(k.Now(), meta);
    NowLike(k, y);
    assert AllLike(x, y);
    AppendLike(k, x, y);
    assert Like(1, x, z) && Like(2, x, z) && Like(3, x, z);
    WindowAppend(k, 1, x, z);
    WindowAppend(k, 2, x, z);
    WindowAppend(k, 3, x, z);
    SafeEither(Append(k, x), y, z);
  }

  lemma {:induction false} CommitDone(k: Cell, z: Leaf)
    requires k.Shape() && LeafOk(z) && k.Now() == z && RestLike(k, z)
    ensures var k' := Fence(WriteBack(k, 0)); CellSafe(k', z, z) && k'.wb == k'.low
  {
    WriteBackRest(k, z);
    FenceRest(WriteBack(k, 0), z);
    HeaderFenced(Fence(WriteBack(k, 0)));
  }

  lemma {:induction false} WriteBackRest(k: Cell, z: Leaf)
    requires k.Shape() && RestLike(k, z)
    ensures WriteBack(k, 0).Shape() && RestLike(WriteBack(k, 0), z)
  {
  }

  // ---------------------------------------------------------------- inserting into a leaf with room

  /** Which slots a compacting insert at `slot` (line 1, 2 or 3) leaves valid after moving `from` entries out of line 0. */
  predicate Compacted(was: seq<bool>, now: seq<bool>, slot: nat, to: nat, from: nat) {
    && |was| == |now| == LEAF_KEY_NUM
    && (forall i :: slot <= i < to && i < LEAF_KEY_NUM ==> now[i])
    && (forall i :: 0 <= i < 3 ==> (now[i] <==> from <= i))
    && (forall i :: 3 <= i < LEAF_KEY_NUM && !(slot <= i < to) ==> now[i] == was[i])
  }

  /** The slots from `slot` to the end of its line are valid; exactly the entries needed for that left line 0. */
  ghost predicate LineFilled(was: seq<bool>, now: seq<bool>, slot: nat) {
    exists from :: Compacted(was, now, slot, LineEnd(slot), from)
  }

  function LineEnd(slot: nat): nat { LastSlotInLine(slot) + 1 }

  /** Progress of the loop: `x` is the leaf as its temporary header describes it, `y` the leaf before the insert. */
  predicate Filling(y: Leaf, x: Leaf, slot: nat, to: nat, from: nat) {
    && y.Shape() && LeafOk(x) && x.next == y.next
    && Compacted(y.m.bitmap, x.m.bitmap, slot, to, from)
    && forall i :: 0 <= i < LEAF_KEY_NUM && y.m.bitmap[i] ==> x.ent[i] == y.ent[i] && x.m.fgpt[i] == y.m.fgpt[i]
  }

  lemma {:induction false} FillStep(y: Leaf, x: Leaf, slot: nat, to: nat, from: nat)
    requires 3 <= slot < to < LineEnd(slot) && from <= to - slot - 1 && Filling(y, x, slot, to, from)
    ensures !x.m.bitmap[to] ==> from < 3 && !y.m.bitmap[to] && Filling(y, MoveEntry(x, from, to), slot, to + 1, from + 1)
    ensures !x.m.bitmap[to] ==> Entries(MoveEntry(x, from, to)) == Entries(x)
    ensures x.m.bitmap[to] ==> Filling(y, x, slot, to + 1, from)
  {
    if !x.m.bitmap[to] {
      assert from < 3 && x.m.bitmap[from];
      MoveEntryOk(x, from, to);
    }
  }

  lemma {:induction false} FillShape(y: Leaf, x: Leaf, slot: nat, to: nat, from: nat)
    requires Filling(y, x, slot, to, from)
    ensures x.Shape() && y.Shape()
  {
  }

  lemma {:induction false} NothingYet(y: Leaf, z: Leaf)
    ensures AllSafe([], y, z)
  {
  }

  /**
   * Step 1.4 of `insert`: with `slot` filled, every other free slot of its line takes an entry of line 0.
   * `meta` collects the new header; `y` is the leaf before the insert.
   */
  method FillLine(k: Cell, meta0: Meta, slot: nat, ghost y: Leaf, ghost safe: bool)
    returns (k': Cell, meta: Meta, ghost tr: seq<Cell>)
    requires k.Shape() && LeafOk(y) && 3 <= slot < LEAF_KEY_NUM
    requires Filling(y, k.Now().(m := meta0), slot, slot + 1, 0)
    requires safe ==> CellSafe(k, y, y)
    ensures k'.Shape() && k'.low == k.low && k'.wb == k.wb
    ensures meta.lock == meta0.lock && meta.alt == meta0.alt
    ensures exists from :: Filling(y, k'.Now().(m := meta), slot, LineEnd(slot), from)
    ensures Entries(k'.Now().(m := meta)) == Entries(k.Now().(m := meta0))
    ensures Steps(k, tr, k') && (safe ==> CellSafe(k', y, y) && AllSafe(tr, y, y))
  {
    hide LeafOk, CellSafe, AllSafe, Compacted, Filling, Entries, Steps;
    k', meta := k, meta0;
    var from := 0;
    tr := [];
    NoSteps(k);
    NothingYet(y, y);
    FillShape(y, k.Now().(m := meta0), slot, slot + 1, 0);
    for to := slot + 1 to LastSlotInLine(slot) + 1
      invariant k'.Shape() && k'.low == k.low && k'.wb == k.wb && k'.Now().(m := meta).Shape()
      invariant meta.lock == meta0.lock && meta.alt == meta0.alt && from <= to - slot - 1
      invariant Filling(y, k'.Now().(m := meta), slot, to, from)
      invariant Entries(k'.Now().(m := meta)) == Entries(k.Now().(m := meta0))
      invariant Steps(k, tr, k') && (safe ==> CellSafe(k', y, y) && AllSafe(tr, y, y))
    {
      ghost var x := k'.Now().(m := meta);
      FillShape(y, x, slot, to, from);
      FillStep(y, x, slot, to, from);
      if !meta.bitmap[to] {
        ghost var tr1, was := [], k';
        k', tr1 := WriteEntry(k', to, k'.Now().ent[from], y, safe);
        StepsJoin(k, tr, was, tr1, k');
        if safe { JoinSafe(tr, tr1, y, y); }
        meta := meta.(fgpt := meta.fgpt[to := meta.fgpt[from]], bitmap := meta.bitmap[to := true][from := false]);
        assert k'.Now().(m := meta) == MoveEntry(x, from, to);
        from := from + 1;
        tr := tr + tr1;
      }
    }
    assert Filling(y, k'.Now().(m := meta), slot, LineEnd(slot), from);
  }

  /**
   * Steps 1.1 to 1.4 of `insert` (and of its step 2.8): put the entry into the first free slot of a leaf that is not full.
   * `meta` is the header copy whose lock bit the caller has chosen.
   */
  method InsertSlot(k: Cell, meta0: Meta, e: IdxEntry, ghost safe: bool) returns (k': Cell, ghost tr: seq<Cell>)
    requires k.Shape() && LeafOk(k.Now()) && !IsFull(k.Now()) && !HasKey(Entries(k.Now()), e.k)
    requires meta0 == k.Now().m.(lock := meta0.lock)
    requires safe ==> Quiet(k)
    ensures k'.Shape() && k'.wb == k'.low && LeafOk(k'.Now()) && Entries(k'.Now()) == Entries(k.Now()) + {e}
    ensures k'.Now().m.lock == meta0.lock && k'.Now().m.alt == k.Now().m.alt && k'.Now().next == k.Now().next
    ensures Placed(k.Now().m.bitmap, k'.Now().m.bitmap) && Steps(k, tr, k')
    ensures safe ==> Quiet(k') && AllSafe(tr, k.Now(), k'.Now())
  {
    hide Steps;
    ghost var y := k.Now();
    var slot := FirstClear(meta0.bitmap);
    var k1, tr1 := WriteEntry(k, slot, e, y, safe);
    var meta := meta0.(fgpt := meta0.fgpt[slot := hashcode1B(e.k)], bitmap := meta0.bitmap[slot := true]);
    AddEntryOk(y.(m := meta0), slot, e);
    assert k1.Now().(m := meta) == AddEntry(y.(m := meta0), slot, e);
    assert Entries(y.(m := meta0)) == Entries(y);
    ghost var tr2;
    if slot < 3 {
      if safe { LineZeroReady(k1, y, meta, slot); }
      k', tr2 := Commit(k1, meta, false, y, safe);
    } else {
      k', tr2 := InsertFar(k1, meta, slot, y, safe);
    }
    if safe { JoinSafe(tr1, tr2, y, k'.Now()); }
    StepsJoin(k, tr1, k1, tr2, k');
    tr := tr1 + tr2;
  }

  /** The valid slots after an insert: the first free slot, and for a slot outside line 0 the whole of its line. */
  ghost predicate Placed(was: seq<bool>, now: seq<bool>) {
    |was| == LEAF_KEY_NUM &&
    var slot := FirstClear(was);
    slot < |was| && if slot < 3 then now == was[slot := true] else LineFilled(was, now, slot)
  }

  lemma {:induction false} JoinSafe(tr1: seq<Cell>, tr2: seq<Cell>, y: Leaf, z: Leaf)
    requires AllSafe(tr1, y, y) && AllSafe(tr2, y, z) && LeafOk(z)
    ensures AllSafe(tr1 + tr2, y, z)
  {
    forall i | 0 <= i < |tr1| ensures CellSafe(tr1[i], y, z) { SafeEither(tr1[i], y, z); }
    hide CellSafe;
  }

  lemma {:induction false} LineZeroReady(k: Cell, y: Leaf, meta: Meta, slot: nat)
    requires CellSafe(k, y, y) && slot < 3 && !y.m.bitmap[slot]
    requires MetaShape(meta) && meta.bitmap == y.m.bitmap[slot := true] && meta.alt == y.m.alt
    requires forall i :: 0 <= i < LEAF_KEY_NUM && i != slot ==> k.Now().ent[i] == y.ent[i] && meta.fgpt[i] == y.m.fgpt[i]
    requires k.Now().next == y.next
    ensures var z := k.Now().(m := meta); RestLike(k, z) && Like(1, z, y) && Like(2, z, y) && Like(3, z, y)
  {
    var z := k.Now().(m := meta);
    NowLike(k, y);
    WindowCarry(k, 1, y, z);
    WindowCarry(k, 2, y, z);
    WindowCarry(k, 3, y, z);
  }

  /** Steps 1.4 to 1.4.3: the slot lies in line 1, 2 or 3 and has been written. */
  method InsertFar(k: Cell, meta0: Meta, slot: nat, ghost y: Leaf, ghost safe: bool) returns (k': Cell, ghost tr: seq<Cell>)
    requires k.Shape() && LeafOk(y) && 3 <= slot < LEAF_KEY_NUM && meta0.alt == y.m.alt
    requires Filling(y, k.Now().(m := meta0), slot, slot + 1, 0)
    requires safe ==> CellSafe(k, y, y)
    ensures k'.Shape() && k'.wb == k'.low && LeafOk(k'.Now()) && Entries(k'.Now()) == Entries(k.Now().(m := meta0))
    ensures k'.Now().m.lock == meta0.lock && k'.Now().m.alt == meta0.alt && k'.Now().next == y.next
    ensures LineFilled(y.m.bitmap, k'.Now().m.bitmap, slot) && Steps(k, tr, k')
    ensures safe ==> Quiet(k') && AllSafe(tr, y, k'.Now())
  {
    hide Steps;
    var k1, meta, tr1 := FillLine(k, meta0, slot, y, safe);
    ghost var from :| Filling(y, k1.Now().(m := meta), slot, LineEnd(slot), from);
    var k2, tr2 := Flush(k1, LineOf(slot), y, y, safe);
    if safe { FarReady(k1, y, meta, slot, from); }
    ghost var tr3;
    k', tr3 := Commit(k2, meta, true, y, safe);
    tr := tr1 + tr2 + tr3;
    StepsJoin(k, tr1, k1, tr2, k2);
    StepsJoin(k, tr1 + tr2, k2, tr3, k');
    if safe {
      JoinSafe(tr1, tr2, y, y);
      JoinSafe(tr1 + tr2, tr3, y, k'.Now());
    }
  }

  lemma {:induction false} FarReady(k: Cell, y: Leaf, meta: Meta, slot: nat, from: nat)
    requires CellSafe(k, y, y) && 3 <= slot < LEAF_KEY_NUM && meta.alt == y.m.alt
    requires Filling(y, k.Now().(m := meta), slot, LineEnd(slot), from)
    ensures var z := k.Now().(m := meta);
      RestLike(Fence(WriteBack(k, LineOf(slot))), z) && Like(1, z, y) && Like(2, z, y) && Like(3, z, y)
  {
    var z := k.Now().(m := meta);
    NowLike(k, y);
    FarWindow(k, y, z, slot, from, 1);
    FarWindow(k, y, z, slot, from, 2);
    FarWindow(k, y, z, slot, from, 3);
  }

  lemma {:induction false} FarWindow(k: Cell, y: Leaf, z: Leaf, slot: nat, from: nat, c: nat)
    requires CellSafe(k, y, y) && 3 <= slot < LEAF_KEY_NUM && 1 <= c < LINES && RestLike(k, y)
    requires z == k.Now().(m := z.m) && z.m.alt == y.m.alt && Filling(y, z, slot, LineEnd(slot), from)
    ensures Window(Fence(WriteBack(k, LineOf(slot))), c, z)
    ensures Like(c, z, y)
  {
    if c == LineOf(slot) {
      FlushedWindow(k, c, z);
    } else {
      WindowCarry(k, c, y, z);
      OtherWindow(k, LineOf(slot), c, z);
    }
  }

  // ---------------------------------------------------------------- deleting

  /** Setting or clearing the lock bit: nothing recovery looks at. */
  method SetLock(k: Cell, b: bool, ghost safe: bool) returns (k': Cell)
    requires k.Shape() && LeafOk(k.Now())
    requires safe ==> Quiet(k)
    ensures k'.Shape() && k'.wb == k.wb && k'.low == k.low && k'.Now() == Relocked(k.Now(), b) && LeafOk(k'.Now())
    ensures Entries(k'.Now()) == Entries(k.Now()) && k'.Now().NextSibling() == k.Now().NextSibling()
    ensures Event(k, k') && (safe ==> Quiet(k'))
  {
    hide Event, OneWord;
    var m := k.Now().m.(lock := b);
    WordZeroIs(k.Now(), m);
    k' := Store(k, WithWord0(k.Now(), m));
    assert m.fgpt == m.fgpt[..6] + m.fgpt[6..];
    RelockedOk(k.Now(), b);
    if safe {
      NowLike(k, k.Now());
      AppendLike(k, k'.Now(), k.Now());
      LikeRelocked(k', k.Now(), b);
    }
  }

  function Relocked(x: Leaf, b: bool): Leaf { x.(m := x.m.(lock := b)) }

  lemma {:induction false} RelockedOk(x: Leaf, b: bool)
    requires LeafOk(x)
    ensures LeafOk(Relocked(x, b)) && Entries(Relocked(x, b)) == Entries(x) && Relocked(x, b).NextSibling() == x.NextSibling()
  {
  }

  lemma {:induction false} LikeRelocked(k: Cell, y: Leaf, b: bool)
    requires CellSafe(k, y, y)
    ensures CellSafe(k, Relocked(y, b), Relocked(y, b))
  {
    var z := Relocked(y, b);
    RelockedOk(y, b);
    assert forall c, x | Like(c, x, y) :: Like(c, x, z);
    assert RestLike(k, y) ==> RestLike(k, z);
    forall s | k.low[0] <= s < |k.h| ensures SeenAs(k, s, z) { assert SeenAs(k, s, y); }
  }

  /** Step 1 of `del`: clear the slot's bit and the lock with one header store, and flush it. */
  method RemoveSlot(k: Cell, i: nat, ghost safe: bool) returns (k': Cell, ghost tr: seq<Cell>)
    requires k.Shape() && LeafOk(k.Now()) && k.Now().Used(i)
    requires safe ==> Quiet(k)
    ensures k'.Shape() && k'.wb == k'.low && LeafOk(k'.Now()) && Entries(k'.Now()) == Entries(k.Now()) - {k.Now().ent[i]}
    ensures !k'.Now().m.lock && k'.Now().m.bitmap == k.Now().m.bitmap[i := false]
    ensures k'.Now().m.alt == k.Now().m.alt && k'.Now().next == k.Now().next && Steps(k, tr, k')
    ensures safe ==> Quiet(k') && AllSafe(tr, k.Now(), k'.Now())
  {
    hide Steps;
    var meta := k.Now().m.(lock := false, bitmap := k.Now().m.bitmap[i := false]);
    RemovedOk(k.Now(), i, k.Now().(m := meta));
    if safe { RemoveReady(k, i, meta); }
    k', tr := Commit(k, meta, false, k.Now(), safe);
  }

  lemma {:induction false} RemovedOk(x: Leaf, i: nat, z: Leaf)
    requires LeafOk(x) && x.Used(i) && z == x.(m := x.m.(lock := z.m.lock, bitmap := x.m.bitmap[i := false]))
    ensures LeafOk(z) && Entries(z) == Entries(x) - {x.ent[i]}
  {
    forall e | e in Entries(x) - {x.ent[i]} ensures e in Entries(z) {
      var j :| 0 <= j < LEAF_KEY_NUM && x.m.bitmap[j] && x.ent[j] == e;
      assert z.m.bitmap[j];
    }
    forall e | e in Entries(z) ensures e in Entries(x) && e != x.ent[i] {
      var j :| 0 <= j < LEAF_KEY_NUM && z.m.bitmap[j] && z.ent[j] == e;
      assert x.m.bitmap[j] && j != i;
      assert if j < i then x.ent[j].k != x.ent[i].k else x.ent[i].k != x.ent[j].k;
    }
  }

  lemma {:induction false} RemoveReady(k: Cell, i: nat, meta: Meta)
    requires Quiet(k) && LeafOk(k.Now()) && k.Now().Used(i)
    requires meta == k.Now().m.(lock := false, bitmap := k.Now().m.bitmap[i := false])
    ensures var y, z := k.Now(), k.Now().(m := meta); RestLike(k, z) && Like(1, z, y) && Like(2, z, y) && Like(3, z, y)
  {
    var y, z := k.Now(), k.Now().(m := meta);
    NowLike(k, y);
    WindowCarry(k, 1, y, z);
    WindowCarry(k, 2, y, z);
    WindowCarry(k, 3, y, z);
  }

  /** In every state of the trace recovery sees the leaf as `y` or as `z`. */
  ghost predicate AllShow(tr: seq<Cell>, y: Leaf, z: Leaf) {
    forall i :: 0 <= i < |tr| ==> Shows(tr[i], y, z)
  }

  /** Step 2 of `del` on the left sibling: redirect its live pointer, flush, and unlock. */
  method Unlink(k: Cell, q: Ptr, ghost safe: bool) returns (k': Cell, ghost tr: seq<Cell>)
    requires k.Shape() && LeafOk(k.Now())
    requires safe ==> Quiet(k)
    ensures k'.Shape() && k'.wb == k'.low && k'.Now() == Relocked(WithNext(k.Now(), k.Now().m.alt, q), false)
    ensures LeafOk(k'.Now()) && Entries(k'.Now()) == Entries(k.Now()) && k'.Now().NextSibling() == q
    ensures Steps(k, tr, k') && (safe ==> Quiet(k') && AllShow(tr, k.Now(), k'.Now()))
  {
    hide Steps, Event, OneWord;
    ghost var y := k.Now();
    ghost var z := WithNext(y, y.m.alt, q);
    RedirectedOk(y, q);
    NextIs(k.Now(), k.Now().m.alt, q);
    var k1 := Store(k, WithNext(k.Now(), k.Now().m.alt, q));
    var k2 := Clwb(k1, 3);
    var k3 := Sfence(k2);
    if safe { Redirected(k, q); }
    k' := SetLock(k3, false, safe);
    tr := [k1] + [k2] + [k3] + [k'];
    OneStep(k, k1);
    StepsMore(k, [k1], k1, k2);
    StepsMore(k, [k1] + [k2], k2, k3);
    StepsMore(k, [k1] + [k2] + [k3], k3, k');
    if safe {
      SafeShows(k', k'.Now(), k'.Now());
      hide CellSafe, Quiet, CellImage;
    }
  }

  lemma {:induction false} RedirectedOk(y: Leaf, q: Ptr)
    requires LeafOk(y)
    ensures var z := WithNext(y, y.m.alt, q); LeafOk(z) && Entries(z) == Entries(y) && z.NextSibling() == q
  {
  }

  /** The store to the live pointer is the commit point of unlinking. */
  lemma {:induction false} Redirected(k: Cell, q: Ptr)
    requires Quiet(k)
    ensures var y := k.Now();
      var z := WithNext(y, y.m.alt, q);
      var z' := Relocked(z, false);
      var k1 := Append(k, z);
      var k2 := WriteBack(k1, 3);
      var k3 := Fence(k2);
      && Shows(k1, y, z') && Shows(k2, y, z') && Shows(k3, y, z') && Quiet(k3) && k3.Now() == z
  {
    var y := k.Now();
    var z := WithNext(y, y.m.alt, q);
    var k1 := Append(k, z);
    AppendShape(k, z);
    RedirectedOk(y, q);
    RelockedOk(z, false);
    RedirectShows(k, q);
    RedirectFenced(k, q);
    ShowsWriteBack(k1, 3, y, z);
    SafeShows(Fence(WriteBack(k1, 3)), z, z);
    hide CellImage, CellSafe, LeafOk, Entries;
  }

  lemma {:induction false} ShowsWriteBack(k: Cell, c: nat, y: Leaf, z: Leaf)
    requires Shows(k, y, z) && c < LINES
    ensures Shows(WriteBack(k, c), y, z)
  {
    var k' := WriteBack(k, c);
    forall x | CellImage(k', x) ensures Obs(x, y) || Obs(x, z) {
      forall d | 0 <= d < LINES ensures LineImage(k, d, x) { assert LineImage(k', d, x); }
    }
  }

  lemma {:induction false} RedirectShows(k: Cell, q: Ptr)
    requires Quiet(k)
    ensures var z := WithNext(k.Now(), k.Now().m.alt, q); Shows(Append(k, z), k.Now(), z)
  {
    var y := k.Now();
    var z := WithNext(y, y.m.alt, q);
    var k1 := Append(k, z);
    AppendShape(k, z);
    RedirectedOk(y, q);
    NowLike(k, y);
    forall x | CellImage(k1, x) ensures Obs(x, y) || Obs(x, z) {
      RedirectImage(k, k1, x, y, z);
    }
  }

  lemma {:induction false} RedirectFirst(k: Cell, k1: Cell, x: Leaf, y: Leaf, z: Leaf)
    requires Quiet(k) && y == k.Now() && RestLike(k, y) && k1 == Append(k, z) && CellImage(k1, x)
    requires LeafOk(z) && z == WithNext(y, y.m.alt, z.NextSibling())
    ensures Like(0, x, y)
  {
    assert LineImage(k1, 0, x);
    var s :| k1.low[0] <= s < |k1.h| && SameLine(0, x, k1.h[s]);
    assert s < |k.h| ==> SeenAs(k, s, y) && k1.h[s] == k.h[s];
  }

  lemma {:induction false} RedirectImage(k: Cell, k1: Cell, x: Leaf, y: Leaf, z: Leaf)
    requires Quiet(k) && y == k.Now() && RestLike(k, y) && k1 == Append(k, z) && CellImage(k1, x)
    requires LeafOk(z) && z == WithNext(y, y.m.alt, z.NextSibling())
    ensures Obs(x, y) || Obs(x, z)
  {
    RedirectFirst(k, k1, x, y, z);
    forall i | 0 <= i < LEAF_KEY_NUM && y.m.bitmap[i] ensures x.ent[i] == y.ent[i] {
      var c := LineOf(i);
      assert LineImage(k1, c, x);
      var t :| k1.low[c] <= t < |k1.h| && SameLine(c, x, k1.h[t]);
      assert t < |k.h| ==> k1.h[t] == k.h[t] && (c != 0 ==> Window(k, c, y) && Like(c, k.h[t], y));
    }
    assert LineImage(k1, 3, x);
    var t :| k1.low[3] <= t < |k1.h| && SameLine(3, x, k1.h[t]);
    assert t < |k.h| ==> k1.h[t] == k.h[t] && Window(k, 3, y) && Like(3, k.h[t], y);
    assert Entries(x) == Entries(y);
  }

  lemma {:induction false} RedirectFenced(k: Cell, q: Ptr)
    requires Quiet(k)
    ensures var z := WithNext(k.Now(), k.Now().m.alt, q);
      var k3 := Fence(WriteBack(Append(k, z), 3)); Quiet(k3) && k3.Now() == z
  {
    var y := k.Now();
    var z := WithNext(y, y.m.alt, q);
    var k1 := Append(k, z);
    AppendShape(k, z);
    RedirectedOk(y, q);
    NowLike(k, y);
    forall c | c == 1 || c == 2 ensures Window(k1, c, z) {
      assert Window(k, c, y);
      assert Window(k, c, z);
      WindowAppend(k, c, z, z);
    }
    OtherWindow(k1, 3, 1, z);
    OtherWindow(k1, 3, 2, z);
    FlushedWindow(k1, 3, z);
    var k3 := Fence(WriteBack(k1, 3));
    forall s | k3.low[0] <= s < |k3.h| ensures SeenAs(k3, s, z) {
      assert s < |k.h| ==> SeenAs(k, s, y) && k3.h[s] == k.h[s];
    }
  }
}
