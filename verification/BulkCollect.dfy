/** `getKeyPtrLevel`: collecting the nodes of one level of a subtree and freeing those above. */
module BulkCollect {
  import opened Types
  import opened Levels
  import opened TreeSteps
  import opened InnerNode
  import opened Pending
  import opened MemPool
  import opened BulkSubtree

  // ---------------------------------------------------------------- parts of a level

  lemma {:induction false} LevelConcat(g: Graph, A: seq<IdxEntry>, B: seq<IdxEntry>, h: nat, l: nat)
    requires l <= h
    ensures Level(g, A + B, h, l) == Level(g, A, h, l) + Level(g, B, h, l)
    decreases h
  {
    if l < h {
      ExpandConcat(g, A, B);
      LevelConcat(g, ExpandAll(g, A), ExpandAll(g, B), h - 1, l);
    }
  }

  lemma {:induction false} TreeParts(g: Graph, leaves: set<Ptr>, A: seq<IdxEntry>, B: seq<IdxEntry>, h: nat)
    requires Tree(g, leaves, A + B, h)
    ensures Tree(g, leaves, A, h) && Tree(g, leaves, B, h)
    decreases h
  {
    var C := A + B;
    assert forall i :: 0 <= i < |A| ==> C[i] == A[i];
    assert forall i :: 0 <= i < |B| ==> C[|A| + i] == B[i];
    if h > 0 {
      ExpandConcat(g, A, B);
      TreeParts(g, leaves, ExpandAll(g, A), ExpandAll(g, B), h - 1);
    }
  }

  lemma {:induction false} HasConcat(A: seq<IdxEntry>, B: seq<IdxEntry>, p: Ptr)
    ensures Has(A + B, p) <==> Has(A, p) || Has(B, p)
    ensures NoDup(A + B) ==> !(Has(A, p) && Has(B, p))
  {
    var C := A + B;
    assert forall i :: 0 <= i < |A| ==> C[i] == A[i];
    assert forall i :: 0 <= i < |B| ==> C[|A| + i] == B[i];
  }

  /** Neighbouring parts of a tree share no node on any level. */
  lemma {:induction false} PartsApart(g: Graph, leaves: set<Ptr>, A: seq<IdxEntry>, B: seq<IdxEntry>, h: nat, p: Ptr, i: nat, j: nat)
    requires Tree(g, leaves, A + B, h) && i <= h && j <= h && Has(Level(g, A, h, i), p) && Has(Level(g, B, h, j), p)
    ensures false
  {
    LevelConcat(g, A, B, h, i);
    LevelConcat(g, A, B, h, j);
    HasConcat(Level(g, A, h, i), Level(g, B, h, i), p);
    HasConcat(Level(g, A, h, j), Level(g, B, h, j), p);
    TreeLevel(g, leaves, A + B, h, i);
    TreeLevel(g, leaves, A + B, h, j);
    if i < j { OneLevel(g, leaves, Level(g, A + B, h, i), i, Level(g, A + B, h, j), j, p); }
    if j < i { OneLevel(g, leaves, Level(g, A + B, h, j), j, Level(g, A + B, h, i), i, p); }
    if i == j { TreeOrdered(g, leaves, Level(g, A + B, h, i), i); }
  }

  // ---------------------------------------------------------------- the nodes above a level

  function PtrSet(L: seq<IdxEntry>): set<Ptr> { set i | 0 <= i < |L| :: L[i].ch }

  /** The nodes of the levels above `target`. */
  function Over(g: Graph, L: seq<IdxEntry>, l: nat, target: nat): set<Ptr>
    decreases l
  {
    if l <= target then {} else PtrSet(L) + Over(g, ExpandAll(g, L), l - 1, target)
  }

  lemma {:induction false} OverConcat(g: Graph, A: seq<IdxEntry>, B: seq<IdxEntry>, l: nat, target: nat)
    ensures Over(g, A + B, l, target) == Over(g, A, l, target) + Over(g, B, l, target)
    decreases l
  {
    if l > target {
      ExpandConcat(g, A, B);
      OverConcat(g, ExpandAll(g, A), ExpandAll(g, B), l - 1, target);
      forall p ensures p in PtrSet(A + B) <==> p in PtrSet(A) || p in PtrSet(B) {
        HasConcat(A, B, p);
        assert p in PtrSet(A + B) <==> Has(A + B, p);
      }
    }
  }

  ghost predicate OnSome(g: Graph, L: seq<IdxEntry>, l: nat, target: nat, p: Ptr) {
    exists j :: target < j <= l && Has(Level(g, L, l, j), p)
  }

  lemma {:induction false} OverHas(g: Graph, L: seq<IdxEntry>, l: nat, target: nat, p: Ptr)
    ensures p in Over(g, L, l, target) <==> OnSome(g, L, l, target, p)
    decreases l
  {
    if l > target {
      var K, m := ExpandAll(g, L), l - 1;
      OverHas(g, K, m, target, p);
      assert p in PtrSet(L) <==> Has(L, p);
      assert Level(g, L, l, l) == L;
      forall j | 0 <= j <= m ensures Level(g, L, l, j) == Level(g, K, m, j) { }
      if Has(L, p) { assert Has(Level(g, L, l, l), p); }
      if OnSome(g, K, m, target, p) {
        var j :| target < j <= m && Has(Level(g, K, m, j), p);
        assert Has(Level(g, L, l, j), p);
      }
      if OnSome(g, L, l, target, p) {
        var j :| target < j <= l && Has(Level(g, L, l, j), p);
        if j < l { assert Has(Level(g, K, m, j), p); }
      }
    }
  }

  /** Removing nodes that do not occur in a tree leaves its levels and the nodes above `target` as they were. */
  lemma {:induction false} OverFrame(g: Graph, g': Graph, leaves: set<Ptr>, L: seq<IdxEntry>, l: nat, target: nat, gone: set<Ptr>)
    requires Tree(g, leaves, L, l) && Same(g, g', gone) && g'.Keys !! leaves && forall p :: p in gone && p in g ==> !AtOrBelow(g, L, l, l, p)
    ensures Tree(g', leaves, L, l) && Over(g', L, l, target) == Over(g, L, l, target) && (forall i :: 0 <= i <= l ==> Level(g', L, l, i) == Level(g, L, l, i))
  {
    FrameBelow(g, g', leaves, leaves, L, l, gone);
    forall p ensures p in Over(g', L, l, target) <==> p in Over(g, L, l, target) {
      OverHas(g, L, l, target, p);
      OverHas(g', L, l, target, p);
      hide Over;
      if OnSome(g, L, l, target, p) {
        var j :| target < j <= l && Has(Level(g, L, l, j), p);
        assert Has(Level(g', L, l, j), p);
      }
      if OnSome(g', L, l, target, p) {
        var j :| target < j <= l && Has(Level(g', L, l, j), p);
        assert Has(Level(g, L, l, j), p);
      }
    }
  }

  // ---------------------------------------------------------------- the recursion

  /** Part of the way through the children: the first `i` have been collected and their upper nodes freed. */
  ghost predicate KidsDone(inner0: map<Ptr, Inner>, inner: map<Ptr, Inner>, ks: seq<IdxEntry>, i: nat, l: nat, target: nat, out: seq<IdxEntry>) {
    var g := GraphOf(inner0);
    i <= |ks| && target <= l && out == Level(g, ks[..i], l, target) && inner == inner0 - Over(g, ks[..i], l, target)
  }

  /** The node itself and the child to come are still there. */
  lemma {:induction false} KidReady(inner0: map<Ptr, Inner>, inner: map<Ptr, Inner>, leaves: set<Ptr>, e: IdxEntry, ks: seq<IdxEntry>, i: nat, l: nat, target: nat, out: seq<IdxEntry>)
    requires Tree(GraphOf(inner0), leaves, [e], l + 1) && ks == Kids(GraphOf(inner0), e) && KidsDone(inner0, inner, ks, i, l, target, out)
    ensures e.ch in inner && inner[e.ch] == inner0[e.ch]
    ensures i < |ks| ==> var g := GraphOf(inner);
      && Tree(g, leaves, [ks[i]], l) && Level(g, [ks[i]], l, target) == Level(GraphOf(inner0), [ks[i]], l, target)
      && Over(g, [ks[i]], l, target) == Over(GraphOf(inner0), [ks[i]], l, target)
  {
    var g0, g := GraphOf(inner0), GraphOf(inner);
    OnlyKids(g0, leaves, e, l);
    var gone := Over(g0, ks[..i], l, target);
    assert ks[..i] + ks[i..] == ks;
    TreeParts(g0, leaves, ks[..i], ks[i..], l);
    NodeStays(g0, leaves, e, ks, i, l, target);
    assert e.ch in g0;
    if i < |ks| {
      assert ks[i..] == [ks[i]] + ks[i + 1..];
      TreeParts(g0, leaves, [ks[i]], ks[i + 1..], l);
      forall p | p in gone && p in g0 ensures !AtOrBelow(g0, [ks[i]], l, l, p) { GoneElsewhere(g0, leaves, ks, i, l, target, p); }
      assert Same(g0, g, gone);
      OverFrame(g0, g, leaves, [ks[i]], l, target, gone);
    }
  }

  lemma {:induction false} OnlyKids(g: Graph, leaves: set<Ptr>, e: IdxEntry, l: nat)
    requires Tree(g, leaves, [e], l + 1)
    ensures e.ch in g && g[e.ch] != [] && ExpandAll(g, [e]) == Kids(g, e) && Tree(g, leaves, Kids(g, e), l)
  {
    assert [e][0] == e && [e][1..] == [];
    ExpandEmpty(g);
    assert ExpandAll(g, [e]) == Kids(g, e) + [];
  }

  lemma {:induction false} NodeStays(g: Graph, leaves: set<Ptr>, e: IdxEntry, ks: seq<IdxEntry>, i: nat, l: nat, target: nat)
    requires Tree(g, leaves, [e], l + 1) && ks == Kids(g, e) && i <= |ks|
    ensures e.ch !in Over(g, ks[..i], l, target)
  {
    OverHas(g, ks[..i], l, target, e.ch);
    if j :| target < j <= l && Has(Level(g, ks[..i], l, j), e.ch) {
      OnlyKids(g, leaves, e, l);
      assert ks[..i] + ks[i..] == ks;
      LevelConcat(g, ks[..i], ks[i..], l, j);
      HasConcat(Level(g, ks[..i], l, j), Level(g, ks[i..], l, j), e.ch);
      TreeLevel(g, leaves, ks, l, j);
      assert [e][0].ch == e.ch;
      OneLevel(g, leaves, Level(g, ks, l, j), j, [e], l + 1, e.ch);
    }
  }

  lemma {:induction false} GoneElsewhere(g: Graph, leaves: set<Ptr>, ks: seq<IdxEntry>, i: nat, l: nat, target: nat, p: Ptr)
    requires Tree(g, leaves, ks, l) && i < |ks| && p in Over(g, ks[..i], l, target)
    ensures !AtOrBelow(g, [ks[i]], l, l, p)
  {
    OverHas(g, ks[..i], l, target, p);
    var j :| target < j <= l && Has(Level(g, ks[..i], l, j), p);
    if k :| 0 <= k <= l && Has(Level(g, [ks[i]], l, k), p) {
      assert ks == (ks[..i] + [ks[i]]) + ks[i + 1..];
      TreeParts(g, leaves, ks[..i] + [ks[i]], ks[i + 1..], l);
      PartsApart(g, leaves, ks[..i], [ks[i]], l, p, j, k);
    }
  }

  lemma {:induction false} KidDone(inner0: map<Ptr, Inner>, inner: map<Ptr, Inner>, inner': map<Ptr, Inner>, ks: seq<IdxEntry>, i: nat, l: nat, target: nat,
                                   out: seq<IdxEntry>, more: seq<IdxEntry>)
    requires KidsDone(inner0, inner, ks, i, l, target, out) && i < |ks|
    requires more == Level(GraphOf(inner0), [ks[i]], l, target) && inner' == inner - Over(GraphOf(inner0), [ks[i]], l, target)
    ensures KidsDone(inner0, inner', ks, i + 1, l, target, out + more)
  {
    var g := GraphOf(inner0);
    assert ks[..i + 1] == ks[..i] + [ks[i]];
    LevelConcat(g, ks[..i], [ks[i]], l, target);
    OverConcat(g, ks[..i], [ks[i]], l, target);
  }

  /** `getKeyPtrLevel` with `free_above_level_nodes` set */
  method GetKeyPtrLevel(inner0: map<Ptr, Inner>, p: Ptr, l: nat, leftKey: Key, target: nat, mempool: Mempool, ghost leaves: set<Ptr>)
    returns (out: seq<IdxEntry>, inner: map<Ptr, Inner>)
    requires mempool.Valid() && mempool.used == inner0.Keys && InnersOk(inner0) && target <= l && Tree(GraphOf(inner0), leaves, [IdxEntry(leftKey, p)], l)
    modifies mempool
    ensures mempool.Valid() && mempool.used == inner.Keys && mempool.end == old(mempool.end) && mempool.cur == old(mempool.cur)
    ensures out == Level(GraphOf(inner0), [IdxEntry(leftKey, p)], l, target)
    ensures inner == inner0 - Over(GraphOf(inner0), [IdxEntry(leftKey, p)], l, target)
    decreases l
  {
    hide Mempool.Valid, Mempool.Left, Tree, Over, Level, KidsDone, InnersOk, NodeOk, Kids, GraphOf, ExpandAll;
    ghost var e, g := IdxEntry(leftKey, p), GraphOf(inner0);
    inner := inner0;
    if l == target {
      AtTarget(g, e, l);
      return [IdxEntry(leftKey, p)], inner0;
    }
    ghost var ks := Kids(g, e);
    NodeKids(inner0, leaves, e, l);
    NoneDone(inner0, ks, l - 1, target);
    out := [];
    var i := 0;
    while i <= inner0[p].num
      invariant 0 <= i <= |ks| && KidsDone(inner0, inner, ks, i, l - 1, target, out)
      invariant mempool.Valid() && mempool.used == inner.Keys && mempool.end == old(mempool.end) && mempool.cur == old(mempool.cur)
    {
      KidReady(inner0, inner, leaves, e, ks, i, l - 1, target, out);
      StillOk(inner0, inner, ks, i, l - 1, target, out);
      var more;
      ghost var was := inner;
      more, inner := GetKeyPtrLevel(inner, inner[p].ent[i].ch, l - 1, if i == 0 then leftKey else inner[p].ent[i].k, target, mempool, leaves);
      KidDone(inner0, was, inner, ks, i, l - 1, target, out, more);
      out := out + more;
      i := i + 1;
    }
    KidReady(inner0, inner, leaves, e, ks, i, l - 1, target, out);
    ghost var was := inner;
    mempool.FreeNode(p);
    inner := inner - {p};
    AllDone(inner0, was, inner, leaves, e, l, target, out);
  }

  lemma {:induction false} AtTarget(g: Graph, e: IdxEntry, l: nat)
    ensures Level(g, [e], l, l) == [e] && Over(g, [e], l, l) == {}
  {
  }

  lemma {:induction false} NodeKids(inner: map<Ptr, Inner>, leaves: set<Ptr>, e: IdxEntry, l: nat)
    requires l > 0 && Tree(GraphOf(inner), leaves, [e], l) && InnersOk(inner)
    ensures e.ch in inner && NodeOk(inner[e.ch]) && |inner[e.ch].ent| == NON_LEAF_KEY_NUM + 1 && 0 <= inner[e.ch].num <= NON_LEAF_KEY_NUM
    ensures var ks, n := Kids(GraphOf(inner), e), inner[e.ch];
      |ks| == n.num + 1 && forall i :: 0 <= i < |ks| ==> ks[i] == IdxEntry(if i == 0 then e.k else n.ent[i].k, n.ent[i].ch)
  {
    OnlyKids(GraphOf(inner), leaves, e, l - 1);
  }

  lemma {:induction false} NoneDone(inner: map<Ptr, Inner>, ks: seq<IdxEntry>, l: nat, target: nat)
    requires target <= l
    ensures KidsDone(inner, inner, ks, 0, l, target, [])
  {
    var g := GraphOf(inner);
    assert ks[..0] == [];
    NoLevel(g, l, target);
  }

  lemma {:induction false} NoLevel(g: Graph, l: nat, target: nat)
    requires target <= l
    ensures Level(g, [], l, target) == [] && Over(g, [], l, target) == {}
    decreases l
  {
    ExpandEmpty(g);
    if l > target { NoLevel(g, l - 1, target); }
  }

  lemma {:induction false} StillOk(inner0: map<Ptr, Inner>, inner: map<Ptr, Inner>, ks: seq<IdxEntry>, i: nat, l: nat, target: nat, out: seq<IdxEntry>)
    requires InnersOk(inner0) && KidsDone(inner0, inner, ks, i, l, target, out)
    ensures InnersOk(inner)
  {
  }

  lemma {:induction false} AllDone(inner0: map<Ptr, Inner>, inner: map<Ptr, Inner>, inner': map<Ptr, Inner>, leaves: set<Ptr>, e: IdxEntry, l: nat, target: nat, out: seq<IdxEntry>)
    requires l > target && Tree(GraphOf(inner0), leaves, [e], l) && inner' == inner - {e.ch}
    requires var ks := Kids(GraphOf(inner0), e); KidsDone(inner0, inner, ks, |ks|, l - 1, target, out)
    ensures out == Level(GraphOf(inner0), [e], l, target) && inner' == inner0 - Over(GraphOf(inner0), [e], l, target)
  {
    var g, ks := GraphOf(inner0), Kids(GraphOf(inner0), e);
    OnlyKids(g, leaves, e, l - 1);
    assert ks[..|ks|] == ks;
    assert PtrSet([e]) == {e.ch} by { assert [e][0].ch == e.ch; }
    assert Over(g, [e], l, target) == {e.ch} + Over(g, ks, l - 1, target);
  }
}
