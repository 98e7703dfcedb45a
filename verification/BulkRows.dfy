/** The inner nodes of a bulkload: one array of nodes per level, filled from the left, a full node starting the next. */
module BulkRows {
  import opened Types
  import opened MemPool
  import opened Grouping

  type Row = seq<Inner>

  /** The node holds exactly these children. */
  predicate Filled(n: Inner, ks: seq<IdxEntry>) {
    && |n.ent| == NON_LEAF_KEY_NUM + 1 && !n.lock && 0 < |ks| <= NON_LEAF_KEY_NUM + 1 && n.num == |ks| - 1 && n.ent[0].ch == ks[0].ch
    && forall c :: 1 <= c < |ks| ==> n.ent[c] == ks[c]
  }

  /** The row holds the groups `G`; `cur` is the node that takes the next child. */
  predicate RowHolds(row: Row, cur: nat, G: seq<seq<IdxEntry>>, F: Size, n: nat) {
    && |row| == n && |G| <= n && cur < n && (forall j :: 0 <= j < n ==> |row[j].ent| == NON_LEAF_KEY_NUM + 1)
    && (forall j :: 0 <= j < |G| ==> Filled(row[j], G[j]))
    && if Open(G, F) || |G| == n then cur + 1 == |G| else cur == |G| && row[cur].num == -1 && !row[cur].lock
  }

  /** One level of the cascade: append a child; true if that starts a new node. */
  method PutKid(row0: Row, cur0: nat, f: nat, n: nat, e: IdxEntry, ghost A: seq<IdxEntry>) returns (row: Row, cur: nat, started: bool)
    requires 1 <= f <= NON_LEAF_KEY_NUM && RowHolds(row0, cur0, Grouped(A, f + 1), f + 1, n) && |Grouped(A + [e], f + 1)| <= n
    ensures RowHolds(row, cur, Grouped(A + [e], f + 1), f + 1, n)
    ensures started <==> !Open(Grouped(A, f + 1), f + 1)
    ensures started ==> cur0 == |Grouped(A, f + 1)|
  {
    hide RowHolds, Filled, Grouped, Open, Even;
    ghost var G, F: Size := Grouped(A, f + 1), f + 1;
    GroupedMore(A, F, e);
    GroupedEven(A, F);
    RowCurrent(row0, cur0, G, F, n, e);
    row, cur := row0, cur0;
    var np := row[cur];
    if np.num >= 0 {
      KidFits(np, G[cur], e, F);
      var kk := np.num + 1;
      np := Inner(np.lock, kk, np.ent[kk := e]);
      row := row[cur := np];
      KidPut(row0, cur, G, F, n, e, np);
      if kk == f && cur < n - 1 {
        cur := cur + 1;
        row := row[cur := row[cur].(lock := false, num := -1)];
      }
      started := false;
    } else {
      np := Inner(np.lock, 0, np.ent[0 := IdxEntry(np.ent[0].k, e.ch)]);
      row := row[cur := np];
      KidStart(row0, cur, G, F, n, e, np);
      started := true;
    }
  }

  /** The current node: the last one started if it has room, else one not yet started. */
  lemma {:induction false} RowCurrent(row: Row, cur: nat, G: seq<seq<IdxEntry>>, F: Size, n: nat, e: IdxEntry)
    requires RowHolds(row, cur, G, F, n) && Even(G, F) && |Extended(G, F, e)| <= n
    ensures cur < |row| == n && |row[cur].ent| == NON_LEAF_KEY_NUM + 1 && !row[cur].lock && (row[cur].num >= 0 <==> Open(G, F))
    ensures if Open(G, F) then cur + 1 == |G| && Filled(row[cur], G[cur]) && |G[cur]| < F else cur == |G| && row[cur].num == -1
  {
    hide Filled;
    if Open(G, F) { FilledNum(row[cur], G[cur]); }
  }

  lemma {:induction false} FilledNum(n: Inner, ks: seq<IdxEntry>)
    requires Filled(n, ks)
    ensures n.num == |ks| - 1 >= 0 && |n.ent| == NON_LEAF_KEY_NUM + 1 && !n.lock
  {
  }

  lemma {:induction false} KidFits(np: Inner, ks: seq<IdxEntry>, e: IdxEntry, F: Size)
    requires Filled(np, ks) && |ks| < F <= NON_LEAF_KEY_NUM + 1
    ensures np.num == |ks| - 1 && Filled(Inner(np.lock, np.num + 1, np.ent[np.num + 1 := e]), ks + [e])
  {
  }

  /** The child goes into the last node started; if that is full now and not the last of the row, the next one is current. */
  lemma {:induction false} KidPut(row: Row, cur: nat, G: seq<seq<IdxEntry>>, F: Size, n: nat, e: IdxEntry, np: Inner)
    requires RowHolds(row, cur, G, F, n) && Open(G, F) && cur + 1 == |G| && Filled(np, G[cur] + [e]) && |G[cur]| < F
    ensures var row1, G1 := row[cur := np], Extended(G, F, e);
      if np.num == F - 1 && cur < n - 1 then RowHolds(row1[cur + 1 := row1[cur + 1].(lock := false, num := -1)], cur + 1, G1, F, n)
      else RowHolds(row1, cur, G1, F, n)
  {
    FilledNum(np, G[cur] + [e]);
    var row1, G1 := row[cur := np], Extended(G, F, e);
    hide Filled;
    assert G1[|G1| - 1] == G[cur] + [e];
    assert forall j :: 0 <= j < |G1| ==> Filled(row1[j], G1[j]);
  }

  /** The child starts a node. */
  lemma {:induction false} KidStart(row: Row, cur: nat, G: seq<seq<IdxEntry>>, F: Size, n: nat, e: IdxEntry, np: Inner)
    requires RowHolds(row, cur, G, F, n) && !Open(G, F) && cur == |G| < n && F >= 2
    requires np == Inner(row[cur].lock, 0, row[cur].ent[0 := IdxEntry(row[cur].ent[0].k, e.ch)])
    ensures RowHolds(row[cur := np], cur, Extended(G, F, e), F, n)
  {
    assert Filled(np, [e]);
    hide Filled;
  }

  /** The levels `from` to `top`: `A[l]` are the children of level `l`, which are the nodes of the level below. */
  ghost predicate RowsHold(rows: seq<Row>, cur: seq<nat>, count: seq<nat>, pfirst: seq<Ptr>, A: seq<seq<IdxEntry>>, from: nat, top: nat, F: Size, size: nat) {
    && from >= 1 && |rows| == |cur| == |A| == top + 1 && |count| > top && |pfirst| > top
    && (forall l :: from <= l <= top ==> RowHolds(rows[l], cur[l], Grouped(A[l], F), F, count[l]))
    && (forall l :: from <= l < top ==> LiesAbove(A, pfirst, l, F, size)) && forall l :: from <= l <= top ==> count[l] == Ceiling(count[l - 1], F)
  }

  predicate LiesAbove(A: seq<seq<IdxEntry>>, pfirst: seq<Ptr>, l: nat, F: Size, size: nat)
    requires l + 1 < |A| && l < |pfirst|
  {
    A[l + 1] == Above(A[l], F, pfirst[l], size)
  }

  lemma {:induction false} RoomThere(A: seq<IdxEntry>, e: IdxEntry, F: Size, n: nat, n': nat)
    requires |A| < n && n' == Ceiling(n, F)
    ensures |Grouped(A + [e], F)| <= n'
  {
    GroupCount(A + [e], F);
    CeilingGrows(|A| + 1, n, F);
  }

  /**
   * The cascade of `bulkloadSubtree` and `bulkloadToptree`: the child goes into the current node of level `from`; each node it starts
   * is itself appended one level up.
   */
  method AppendUp(rows0: seq<Row>, cur0: seq<nat>, count: seq<nat>, pfirst: seq<Ptr>, from: nat, top: nat, f: nat, size: nat,
                  child0: Ptr, leftKey: Key, ghost A0: seq<seq<IdxEntry>>)
    returns (rows: seq<Row>, cur: seq<nat>, ghost A: seq<seq<IdxEntry>>)
    requires 1 <= f <= NON_LEAF_KEY_NUM && RowsHold(rows0, cur0, count, pfirst, A0, from, top, f + 1, size) && from <= top && |A0[from]| < count[from - 1]
    ensures RowsHold(rows, cur, count, pfirst, A, from, top, f + 1, size) && A[from] == A0[from] + [IdxEntry(leftKey, child0)]
  {
    hide RowsHold, Cascading, RowHolds, Grouped, Ceiling, Above, Open;
    rows, cur, A := rows0, cur0, A0;
    var child := child0;
    var ll := from;
    ghost var F: Size := f + 1;
    Sizes(rows, cur, count, pfirst, A, from, top, F, size);
    CascadeStart(rows, cur, count, pfirst, A, from, top, F, size, leftKey, child);
    while ll <= top
      invariant from <= ll <= top + 1 && |rows| == |cur| == top + 1 && |A| == top + 1
      invariant Cascading(rows, cur, count, pfirst, A0, A, from, ll, top, F, size, leftKey, child0, child)
    {
      var e := IdxEntry(leftKey, child);
      ghost var B := A[ll];
      CascadeRoom(rows, cur, count, pfirst, A0, A, from, ll, top, F, size, leftKey, child0, child);
      var row, at, started := PutKid(rows[ll], cur[ll], f, count[ll], e, B);
      CascadeStep(rows, cur, count, pfirst, A0, A, from, ll, top, F, size, leftKey, child0, child, row, at);
      var np := NodeAt(pfirst[ll], cur[ll], size);
      rows, cur, A := rows[ll := row], cur[ll := at], A[ll := B + [e]];
      if !started { return; }
      child := np;
      ll := ll + 1;
    }
    CascadeEnd(rows, cur, count, pfirst, A0, A, from, top, F, size, leftKey, child0, child);
  }

  lemma {:induction false} Sizes(rows: seq<Row>, cur: seq<nat>, count: seq<nat>, pfirst: seq<Ptr>, A: seq<seq<IdxEntry>>, from: nat, top: nat, F: Size, size: nat)
    requires RowsHold(rows, cur, count, pfirst, A, from, top, F, size)
    ensures from >= 1 && |rows| == |cur| == |A| == top + 1 && |count| > top && |pfirst| > top
  {
  }

  /** The levels below `ll` have taken the child; `child` is to go to level `ll`, and that level and those above are as before. */
  ghost predicate Cascading(rows: seq<Row>, cur: seq<nat>, count: seq<nat>, pfirst: seq<Ptr>, A0: seq<seq<IdxEntry>>, A: seq<seq<IdxEntry>>, from: nat, ll: nat,
                            top: nat, F: Size, size: nat, leftKey: Key, child0: Ptr, child: Ptr) {
    && 1 <= from <= ll <= top + 1 && |rows| == |cur| == |A| == |A0| == top + 1 && |count| > top && |pfirst| > top
    && (forall l :: from <= l <= top ==> RowHolds(rows[l], cur[l], Grouped(A[l], F), F, count[l]))
    && (forall l :: from <= l < top && l != ll - 1 ==> LiesAbove(A, pfirst, l, F, size)) && (forall l :: from <= l <= top ==> count[l] == Ceiling(count[l - 1], F))
    && (from < ll <= top ==> Above(A[ll - 1], F, pfirst[ll - 1], size) == A[ll] + [IdxEntry(leftKey, child)])
    && from <= top && if ll == from then child == child0 && A[from] == A0[from] && |A[from]| < count[from - 1] else A[from] == A0[from] + [IdxEntry(leftKey, child0)]
  }

  lemma {:induction false} CascadeStart(rows: seq<Row>, cur: seq<nat>, count: seq<nat>, pfirst: seq<Ptr>, A: seq<seq<IdxEntry>>, from: nat, top: nat, F: Size, size: nat,
                                        leftKey: Key, child: Ptr)
    requires RowsHold(rows, cur, count, pfirst, A, from, top, F, size) && from <= top && |A[from]| < count[from - 1]
    ensures Cascading(rows, cur, count, pfirst, A, A, from, from, top, F, size, leftKey, child, child)
  {
    hide RowHolds, LiesAbove, Ceiling;
  }

  lemma {:induction false} CascadeRoom(rows: seq<Row>, cur: seq<nat>, count: seq<nat>, pfirst: seq<Ptr>, A0: seq<seq<IdxEntry>>, A: seq<seq<IdxEntry>>, from: nat, ll: nat,
                                       top: nat, F: Size, size: nat, leftKey: Key, child0: Ptr, child: Ptr)
    requires Cascading(rows, cur, count, pfirst, A0, A, from, ll, top, F, size, leftKey, child0, child) && ll <= top
    ensures RowHolds(rows[ll], cur[ll], Grouped(A[ll], F), F, count[ll]) && |Grouped(A[ll] + [IdxEntry(leftKey, child)], F)| <= count[ll]
    ensures |count| > top && |pfirst| > top
  {
    hide LiesAbove, Ceiling, Grouped, Open, Filled;
    if ll > from {
      assert RowHolds(rows[ll - 1], cur[ll - 1], Grouped(A[ll - 1], F), F, count[ll - 1]);
      assert |Above(A[ll - 1], F, pfirst[ll - 1], size)| <= count[ll - 1];
    }
    hide RowHolds, Above;
    assert |A[ll]| < count[ll - 1];
    RoomThere(A[ll], IdxEntry(leftKey, child), F, count[ll - 1], count[ll]);
  }

  lemma {:induction false} CascadeStep(rows: seq<Row>, cur: seq<nat>, count: seq<nat>, pfirst: seq<Ptr>, A0: seq<seq<IdxEntry>>, A: seq<seq<IdxEntry>>, from: nat, ll: nat,
                                       top: nat, F: Size, size: nat, leftKey: Key, child0: Ptr, child: Ptr, row: Row, at: nat)
    requires Cascading(rows, cur, count, pfirst, A0, A, from, ll, top, F, size, leftKey, child0, child) && ll <= top
    requires var e := IdxEntry(leftKey, child);
      RowHolds(row, at, Grouped(A[ll] + [e], F), F, count[ll]) && (!Open(Grouped(A[ll], F), F) ==> cur[ll] == |Grouped(A[ll], F)|)
    ensures var rows', cur', A' := rows[ll := row], cur[ll := at], A[ll := A[ll] + [IdxEntry(leftKey, child)]];
      if Open(Grouped(A[ll], F), F) then RowsHold(rows', cur', count, pfirst, A', from, top, F, size) && A'[from] == A0[from] + [IdxEntry(leftKey, child0)]
      else Cascading(rows', cur', count, pfirst, A0, A', from, ll + 1, top, F, size, leftKey, child0, NodeAt(pfirst[ll], cur[ll], size))
  {
    hide RowHolds, Grouped, Ceiling, Above, Open;
    var e := IdxEntry(leftKey, child);
    AboveMore(A[ll], F, pfirst[ll], size, e);
    var A' := A[ll := A[ll] + [e]];
    forall l | from <= l < top && l != ll && l != ll - 1 ensures LiesAbove(A', pfirst, l, F, size) { assert LiesAbove(A, pfirst, l, F, size); }
    if ll < top { assert LiesAbove(A, pfirst, ll, F, size); }
    if ll > from { assert LiesAbove(A', pfirst, ll - 1, F, size); }
  }

  lemma {:induction false} CascadeEnd(rows: seq<Row>, cur: seq<nat>, count: seq<nat>, pfirst: seq<Ptr>, A0: seq<seq<IdxEntry>>, A: seq<seq<IdxEntry>>, from: nat,
                                      top: nat, F: Size, size: nat, leftKey: Key, child0: Ptr, child: Ptr)
    requires Cascading(rows, cur, count, pfirst, A0, A, from, top + 1, top, F, size, leftKey, child0, child) && from <= top
    ensures RowsHold(rows, cur, count, pfirst, A, from, top, F, size) && A[from] == A0[from] + [IdxEntry(leftKey, child0)]
  {
    hide RowHolds, LiesAbove, Ceiling;
  }
}
