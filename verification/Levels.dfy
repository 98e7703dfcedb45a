/**
 * The inner part of an LB+-tree seen level by level.
 *
 * Level `l` is the left-to-right list of that level's nodes, each paired with the low
 * end of its key range. The list of level `l` is the list of level `l+1` with every
 * node replaced by its children.
 */
module Levels {
  import opened Types

  /** The children of every inner node. The key of child 0 is not meaningful: the child inherits its parent's low key. */
  type Graph = map<Ptr, seq<IdxEntry>>

  function Kids(g: Graph, e: IdxEntry): seq<IdxEntry> {
    if e.ch in g && g[e.ch] != [] then [IdxEntry(e.k, g[e.ch][0].ch)] + g[e.ch][1..] else []
  }

  function ExpandAll(g: Graph, L: seq<IdxEntry>): seq<IdxEntry> {
    if L == [] then [] else Kids(g, L[0]) + ExpandAll(g, L[1..])
  }

  /** Level `l` of the tree whose level `h` is `top`. */
  function Level(g: Graph, top: seq<IdxEntry>, h: nat, l: nat): seq<IdxEntry>
    requires l <= h
    decreases h
  {
    if l == h then top else Level(g, ExpandAll(g, top), h - 1, l)
  }

  predicate Has(L: seq<IdxEntry>, p: Ptr) {
    exists i :: 0 <= i < |L| && L[i].ch == p
  }

  predicate NoDup(L: seq<IdxEntry>) {
    forall i, j :: 0 <= i < j < |L| ==> L[i].ch != L[j].ch
  }

  predicate Ascending(L: seq<IdxEntry>) {
    forall i, j :: 0 <= i < j < |L| ==> L[i].k < L[j].k
  }

  predicate Closed(g: Graph, L: seq<IdxEntry>) {
    forall i :: 0 <= i < |L| ==> L[i].ch in g && g[L[i].ch] != []
  }

  /** `g'` agrees with `g` at every node of `g` outside `changed`. */
  predicate Same(g: Graph, g': Graph, changed: set<Ptr>) {
    forall p | p in g && p !in changed :: p in g' && g'[p] == g[p]
  }

  predicate AtOrBelow(g: Graph, top: seq<IdxEntry>, h: nat, l: nat, p: Ptr)
    requires l <= h
  {
    exists i :: 0 <= i <= l && Has(Level(g, top, h, i), p)
  }

  predicate ClosedAt(g: Graph, top: seq<IdxEntry>, h: nat, l: nat)
    requires l <= h
  {
    Closed(g, Level(g, top, h, l))
  }

  /** The tree shape: uniform depth, no sharing, separators in order. */
  predicate Tree(g: Graph, leaves: set<Ptr>, top: seq<IdxEntry>, h: nat)
    decreases h
  {
    && g.Keys !! leaves
    && if h == 0 then (forall i :: 0 <= i < |top| ==> top[i].ch in leaves) && NoDup(top) && Ascending(top)
       else Closed(g, top) && Tree(g, leaves, ExpandAll(g, top), h - 1)
  }

  /** Everything to the right of a context starts above `key`. */
  predicate Below(key: Key, B: seq<IdxEntry>) {
    B != [] ==> key < B[0].k
  }

  // ---------------------------------------------------------------- expansion

  lemma {:induction false} ExpandEmpty(g: Graph)
    ensures ExpandAll(g, []) == []
  {
  }

  lemma {:induction false} ExpandFirst(g: Graph, L: seq<IdxEntry>)
    requires L != []
    ensures ExpandAll(g, L) == Kids(g, L[0]) + ExpandAll(g, L[1..])
  {
  }

  lemma {:induction false} ExpandConcat(g: Graph, A: seq<IdxEntry>, B: seq<IdxEntry>)
    ensures ExpandAll(g, A + B) == ExpandAll(g, A) + ExpandAll(g, B)
  {
    hide Kids, ExpandAll;
    if A == [] {
      assert A + B == B;
      ExpandEmpty(g);
    } else {
      ExpandConcat(g, A[1..], B);
      assert (A + B)[1..] == A[1..] + B;
      ExpandFirst(g, A);
      ExpandFirst(g, A + B);
    }
  }

  lemma {:induction false} ExpandFrame(g: Graph, g': Graph, L: seq<IdxEntry>)
    requires forall i :: 0 <= i < |L| ==> Kids(g, L[i]) == Kids(g', L[i])
    ensures ExpandAll(g, L) == ExpandAll(g', L)
  {
    if L != [] { ExpandFrame(g, g', L[1..]); }
  }

  lemma {:induction false} ExpandAround(g: Graph, A: seq<IdxEntry>, e: IdxEntry, B: seq<IdxEntry>)
    ensures ExpandAll(g, A + [e] + B) == ExpandAll(g, A) + Kids(g, e) + ExpandAll(g, B)
  {
    ExpandConcat(g, A + [e], B);
    ExpandConcat(g, A, [e]);
    assert ExpandAll(g, [e]) == Kids(g, e);
  }

  /** A node of a list contributes its first child to the expansion. */
  lemma {:induction false} KidHas(g: Graph, L: seq<IdxEntry>, p: Ptr, c: nat)
    requires Has(L, p) && p in g && c < |g[p]|
    ensures Has(ExpandAll(g, L), g[p][c].ch)
  {
    if L[0].ch == p {
      assert Kids(g, L[0])[c].ch == g[p][c].ch;
      assert ExpandAll(g, L)[c].ch == g[p][c].ch;
    } else {
      assert Has(L[1..], p) by {
        var i :| 0 <= i < |L| && L[i].ch == p;
        assert L[1..][i - 1].ch == p;
      }
      KidHas(g, L[1..], p, c);
      var j :| 0 <= j < |ExpandAll(g, L[1..])| && ExpandAll(g, L[1..])[j].ch == g[p][c].ch;
      assert ExpandAll(g, L)[|Kids(g, L[0])| + j].ch == g[p][c].ch;
    }
  }

  lemma {:induction false} NoDupUp(g: Graph, L: seq<IdxEntry>)
    requires Closed(g, L) && NoDup(ExpandAll(g, L))
    ensures NoDup(L)
  {
    if L != [] {
      var R := L[1..];
      var K, X := Kids(g, L[0]), ExpandAll(g, R);
      assert ExpandAll(g, L) == K + X;
      forall i, j | 0 <= i < j < |X| ensures X[i].ch != X[j].ch {
        assert (K + X)[|K| + i].ch != (K + X)[|K| + j].ch;
      }
      NoDupUp(g, R);
      forall j | 0 <= j < |X| ensures X[j].ch != K[0].ch {
        assert (K + X)[0].ch != (K + X)[|K| + j].ch;
      }
      if Has(R, L[0].ch) { KidHas(g, R, L[0].ch, 0); }
      forall i, j | 0 <= i < j < |L| ensures L[i].ch != L[j].ch {
        assert L[j].ch == R[j - 1].ch;
        if i > 0 { assert L[i].ch == R[i - 1].ch; }
      }
    }
  }

  lemma {:induction false} FirstKey(g: Graph, L: seq<IdxEntry>)
    requires Closed(g, L) && L != []
    ensures ExpandAll(g, L) != [] && ExpandAll(g, L)[0].k == L[0].k
  {
  }

  lemma {:induction false} AscendingUp(g: Graph, L: seq<IdxEntry>)
    requires Closed(g, L) && Ascending(ExpandAll(g, L))
    ensures Ascending(L)
  {
    if L != [] {
      var R := L[1..];
      var K, X := Kids(g, L[0]), ExpandAll(g, R);
      assert ExpandAll(g, L) == K + X;
      forall i, j | 0 <= i < j < |X| ensures X[i].k < X[j].k {
        assert (K + X)[|K| + i].k < (K + X)[|K| + j].k;
      }
      AscendingUp(g, R);
      if R != [] {
        FirstKey(g, R);
        assert (K + X)[0].k < (K + X)[|K|].k;
      }
      forall i, j | 0 <= i < j < |L| ensures L[i].k < L[j].k {
        assert L[j].k == R[j - 1].k;
        if i > 0 { assert L[i].k == R[i - 1].k; }
      }
    }
  }

  // ---------------------------------------------------------------- levels

  lemma {:induction false} LevelDown(g: Graph, top: seq<IdxEntry>, h: nat, l: nat)
    requires l < h
    ensures Level(g, top, h, l) == ExpandAll(g, Level(g, top, h, l + 1))
    decreases h
  {
    if l + 1 < h { LevelDown(g, ExpandAll(g, top), h - 1, l); }
  }

  /** Every level of a tree is itself a tree's top. */
  lemma {:induction false} TreeLevel(g: Graph, leaves: set<Ptr>, top: seq<IdxEntry>, h: nat, l: nat)
    requires Tree(g, leaves, top, h) && l <= h
    ensures Tree(g, leaves, Level(g, top, h, l), l)
    decreases h
  {
    if l < h { TreeLevel(g, leaves, ExpandAll(g, top), h - 1, l); }
  }

  lemma {:induction false} TreeOrdered(g: Graph, leaves: set<Ptr>, top: seq<IdxEntry>, h: nat)
    requires Tree(g, leaves, top, h)
    ensures NoDup(top) && Ascending(top)
    decreases h
  {
    if h > 0 {
      TreeOrdered(g, leaves, ExpandAll(g, top), h - 1);
      NoDupUp(g, top);
      AscendingUp(g, top);
    }
  }

  /** No node lies on two levels. */
  lemma {:induction false} OneLevel(g: Graph, leaves: set<Ptr>, L: seq<IdxEntry>, l: nat, M: seq<IdxEntry>, m: nat, p: Ptr)
    requires Tree(g, leaves, L, l) && Tree(g, leaves, M, m) && l < m
    requires Has(L, p) && Has(M, p)
    ensures false
    decreases l
  {
    assert Closed(g, M);
    if l > 0 {
      hide ExpandAll, NoDup, Ascending;
      KidHas(g, L, p, 0);
      KidHas(g, M, p, 0);
      hide Has;
      OneLevel(g, leaves, ExpandAll(g, L), l - 1, ExpandAll(g, M), m - 1, g[p][0].ch);
    }
  }

  // ---------------------------------------------------------------- frames

  /** Changing nodes that are new, or sit on level `l` or lower, leaves levels `l` and above as they were. */
  lemma {:induction false} FrameAbove(g: Graph, g': Graph, leaves: set<Ptr>, top: seq<IdxEntry>, h: nat, l: nat, changed: set<Ptr>)
    requires Tree(g, leaves, top, h) && l <= h
    requires Same(g, g', changed)
    requires forall p | p in changed && p in g :: AtOrBelow(g, top, h, l, p)
    ensures forall i | l <= i <= h :: Level(g', top, h, i) == Level(g, top, h, i)
    decreases h
  {
    if l < h {
      forall i | 0 <= i < |top| ensures Kids(g, top[i]) == Kids(g', top[i]) {
        var p := top[i].ch;
        if p in changed {
          var j :| 0 <= j <= l && Has(Level(g, top, h, j), p);
          TreeLevel(g, leaves, top, h, j);
          OneLevel(g, leaves, Level(g, top, h, j), j, top, h, p);
        }
      }
      ExpandFrame(g, g', top);
      var top', h' := ExpandAll(g, top), h - 1;
      forall p | p in changed && p in g ensures AtOrBelow(g, top', h', l, p) {
        var i :| 0 <= i <= l && Has(Level(g, top, h, i), p);
        assert Level(g, top', h', i) == Level(g, top, h, i);
      }
      FrameAbove(g, g', leaves, top', h', l, changed);
    }
  }

  /** Changing nodes that do not occur in a tree leaves the tree as it was. */
  lemma {:induction false} FrameBelow(g: Graph, g': Graph, leaves: set<Ptr>, leaves': set<Ptr>, L: seq<IdxEntry>, l: nat,
                                      changed: set<Ptr>)
    requires Tree(g, leaves, L, l)
    requires Same(g, g', changed)
    requires forall p | p in changed && p in g :: !AtOrBelow(g, L, l, l, p)
    requires g'.Keys !! leaves' && leaves <= leaves'
    ensures Tree(g', leaves', L, l)
    ensures forall i | 0 <= i <= l :: Level(g', L, l, i) == Level(g, L, l, i)
    decreases l
  {
    if l > 0 {
      forall i | 0 <= i < |L| ensures L[i].ch !in changed {
        assert Has(Level(g, L, l, l), L[i].ch);
      }
      assert forall i | 0 <= i < |L| :: Kids(g, L[i]) == Kids(g', L[i]);
      ExpandFrame(g, g', L);
      var L', l' := ExpandAll(g, L), l - 1;
      forall p | p in changed && p in g ensures !AtOrBelow(g, L', l', l', p) {
        forall i | 0 <= i <= l' ensures !Has(Level(g, L', l', i), p) {
          assert !Has(Level(g, L, l, i), p);
        }
      }
      FrameBelow(g, g', leaves, leaves', L', l', changed);
    }
  }

  lemma {:induction false} NotBelow(g: Graph, leaves: set<Ptr>, L: seq<IdxEntry>, l: nat, M: seq<IdxEntry>, m: nat, p: Ptr)
    requires Tree(g, leaves, L, l) && Tree(g, leaves, M, m) && l < m && Has(M, p)
    ensures !AtOrBelow(g, L, l, l, p)
  {
    if AtOrBelow(g, L, l, l, p) {
      var i :| 0 <= i <= l && Has(Level(g, L, l, i), p);
      TreeLevel(g, leaves, L, l, i);
      OneLevel(g, leaves, Level(g, L, l, i), i, M, m, p);
    }
  }

  lemma {:induction false} TreeIntro(g: Graph, leaves: set<Ptr>, top: seq<IdxEntry>, h: nat, l: nat)
    requires l <= h && Tree(g, leaves, Level(g, top, h, l), l)
    requires forall i | l < i <= h :: ClosedAt(g, top, h, i)
    ensures Tree(g, leaves, top, h)
    decreases h
  {
    if l < h {
      assert ClosedAt(g, top, h, h);
      var top', h' := ExpandAll(g, top), h - 1;
      forall i | l < i <= h' ensures ClosedAt(g, top', h', i) {
        assert ClosedAt(g, top, h, i);
      }
      TreeIntro(g, leaves, top', h', l);
    }
  }

  lemma {:induction false} LevelClosed(g: Graph, leaves: set<Ptr>, top: seq<IdxEntry>, h: nat, l: nat)
    requires Tree(g, leaves, top, h) && 0 < l <= h
    ensures ClosedAt(g, top, h, l)
  {
    TreeLevel(g, leaves, top, h, l);
  }

  // ---------------------------------------------------------------- contexts

  /** A list split around one of its entries. */
  datatype Ctx = Ctx(A: seq<IdxEntry>, e: IdxEntry, B: seq<IdxEntry>) {
    function All(): seq<IdxEntry> { A + [e] + B }
  }

  /** The context of child `c` of the node that `x` singles out. */
  function Down(g: Graph, x: Ctx, c: nat): Ctx
    requires c < |Kids(g, x.e)|
  {
    var ks := Kids(g, x.e);
    Ctx(ExpandAll(g, x.A) + ks[..c], ks[c], ks[c + 1..] + ExpandAll(g, x.B))
  }

  lemma {:induction false} SplitAround(X: seq<IdxEntry>, ks: seq<IdxEntry>, Y: seq<IdxEntry>, c: nat)
    requires c < |ks|
    ensures (X + ks[..c]) + [ks[c]] + (ks[c + 1..] + Y) == X + ks + Y
  {
    assert ks == ks[..c] + [ks[c]] + ks[c + 1..];
  }

  lemma {:induction false} DownAll(g: Graph, x: Ctx, c: nat)
    requires c < |Kids(g, x.e)|
    ensures Down(g, x, c).All() == ExpandAll(g, x.All())
  {
    ExpandAround(g, x.A, x.e, x.B);
    SplitAround(ExpandAll(g, x.A), Kids(g, x.e), ExpandAll(g, x.B), c);
  }

  lemma {:induction false} CtxOf(L: seq<IdxEntry>, p: Ptr) returns (x: Ctx)
    requires Has(L, p)
    ensures x.All() == L && x.e.ch == p
  {
    var i :| 0 <= i < |L| && L[i].ch == p;
    x := Ctx(L[..i], L[i], L[i + 1..]);
  }

  /** In a list without duplicates there is only one way to single out a node. */
  lemma {:induction false} CtxUnique(x: Ctx, y: Ctx)
    requires x.All() == y.All() && x.e.ch == y.e.ch && NoDup(x.All())
    ensures x == y
  {
    var L := x.All();
    assert L[|x.A|] == x.e && L[|y.A|] == y.e;
    assert |x.A| == |y.A|;
    assert x.A == L[..|x.A|] && y.A == L[..|x.A|];
    assert x.B == L[|x.A| + 1..] && y.B == L[|x.A| + 1..];
  }

  lemma {:induction false} CtxApart(x: Ctx)
    requires NoDup(x.All())
    ensures !Has(x.A, x.e.ch) && !Has(x.B, x.e.ch)
  {
    var L := x.All();
    assert L[|x.A|] == x.e;
    forall i | 0 <= i < |x.A| ensures x.A[i].ch != x.e.ch { assert L[i] == x.A[i]; }
    forall i | 0 <= i < |x.B| ensures x.B[i].ch != x.e.ch { assert L[|x.A| + 1 + i] == x.B[i]; }
  }

  /** Two graphs that agree away from the singled-out node expand both sides of the context alike. */
  lemma {:induction false} SidesAgree(g: Graph, g': Graph, x: Ctx)
    requires NoDup(x.All())
    requires forall i | 0 <= i < |x.All()| && x.All()[i].ch != x.e.ch :: Kids(g, x.All()[i]) == Kids(g', x.All()[i])
    ensures ExpandAll(g', x.A) == ExpandAll(g, x.A) && ExpandAll(g', x.B) == ExpandAll(g, x.B)
  {
    hide Kids;
    CtxApart(x);
    forall i | 0 <= i < |x.A| ensures Kids(g, x.A[i]) == Kids(g', x.A[i]) { assert x.All()[i] == x.A[i]; }
    forall i | 0 <= i < |x.B| ensures Kids(g, x.B[i]) == Kids(g', x.B[i]) { assert x.All()[|x.A| + 1 + i] == x.B[i]; }
    ExpandFrame(g, g', x.A);
    ExpandFrame(g, g', x.B);
  }

  /** Expanding around a changed node: only its own children change. */
  lemma {:induction false} ExpandChanged(g: Graph, g': Graph, x: Ctx)
    requires NoDup(x.All())
    requires forall i | 0 <= i < |x.All()| && x.All()[i].ch != x.e.ch :: Kids(g, x.All()[i]) == Kids(g', x.All()[i])
    ensures ExpandAll(g', x.All()) == ExpandAll(g, x.A) + Kids(g', x.e) + ExpandAll(g, x.B)
  {
    hide Kids, ExpandAll;
    SidesAgree(g, g', x);
    ExpandAround(g', x.A, x.e, x.B);
  }
}
