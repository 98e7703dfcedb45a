/** What one structural step does to the levels of a tree: adding a split-off node, and removing an emptied branch. */
module TreeSteps {
  import opened Types
  import opened Levels

  /** The level with the split-off node `n` placed right after the singled-out one. */
  function After(x: Ctx, n: IdxEntry): seq<IdxEntry> {
    x.A + [x.e] + ([n] + x.B)
  }

  function InsertAt(ks: seq<IdxEntry>, c: nat, n: IdxEntry): seq<IdxEntry>
    requires c < |ks|
  {
    ks[..c + 1] + [n] + ks[c + 1..]
  }

  // ---------------------------------------------------------------- search

  /** The search position in a node: child `c` is the one whose key range holds `key`. */
  predicate Position(ks: seq<IdxEntry>, key: Key, c: int) {
    && 0 <= c < |ks|
    && (c == 0 || ks[c].k <= key)
    && (c + 1 < |ks| ==> key < ks[c + 1].k)
  }

  /** The key range of the singled-out node holds `key`. */
  predicate Covers(x: Ctx, key: Key) {
    x.e.k <= key && Below(key, x.B)
  }

  lemma {:induction false} Descend(g: Graph, x: Ctx, key: Key, c: nat)
    requires Closed(g, x.All()) && Covers(x, key) && x.e.ch in g && Position(g[x.e.ch], key, c)
    ensures Covers(Down(g, x, c), key)
    ensures Down(g, x, c).All() == ExpandAll(g, x.All())
    ensures Down(g, x, c).e.ch == g[x.e.ch][c].ch
  {
    DownAll(g, x, c);
    forall i | 0 <= i < |x.B| ensures x.B[i].ch in g && g[x.B[i].ch] != [] { assert x.All()[|x.A| + 1 + i] == x.B[i]; }
    if x.B != [] { FirstKey(g, x.B); }
    KidsAt(g, x.e);
    hide ExpandAll, Kids, Ctx.All, Closed;
    assert Down(g, x, c).e == Kids(g, x.e)[c];
    if c + 1 < |g[x.e.ch]| {
      assert Down(g, x, c).B[0] == Kids(g, x.e)[c + 1];
    } else {
      assert Down(g, x, c).B == ExpandAll(g, x.B);
    }
  }

  lemma {:induction false} KidsAt(g: Graph, e: IdxEntry)
    requires e.ch in g && g[e.ch] != []
    ensures |Kids(g, e)| == |g[e.ch]| && Kids(g, e)[0].k == e.k
    ensures forall i | 0 <= i < |g[e.ch]| :: Kids(g, e)[i].ch == g[e.ch][i].ch && (i > 0 ==> Kids(g, e)[i].k == g[e.ch][i].k)
  {
  }

  /** Exactly one node of an ordered level covers a key. */
  lemma {:induction false} CoversUnique(x: Ctx, y: Ctx, key: Key)
    requires x.All() == y.All() && Ascending(x.All()) && Covers(x, key) && Covers(y, key)
    ensures x == y
  {
    var L := x.All();
    assert L[|x.A|] == x.e && L[|y.A|] == y.e;
    assert |x.B| > 0 ==> L[|x.A| + 1] == x.B[0];
    assert |y.B| > 0 ==> L[|y.A| + 1] == y.B[0];
    assert x.A == L[..|x.A|] && y.A == L[..|x.A|];
    assert x.B == L[|x.A| + 1..] && y.B == L[|x.A| + 1..];
  }

  // ---------------------------------------------------------------- growing

  lemma {:induction false} AfterAt(x: Ctx, n: IdxEntry)
    ensures |After(x, n)| == |x.All()| + 1
    ensures forall i | 0 <= i <= |x.A| :: After(x, n)[i] == x.All()[i]
    ensures After(x, n)[|x.A| + 1] == n && x.All()[|x.A|] == x.e
    ensures forall i | |x.A| + 1 < i < |After(x, n)| :: After(x, n)[i] == x.All()[i - 1]
    ensures x.B != [] ==> x.All()[|x.A| + 1] == x.B[0]
  {
  }

  lemma {:induction false} AfterOrdered(x: Ctx, n: IdxEntry)
    requires NoDup(x.All()) && Ascending(x.All()) && !Has(x.All(), n.ch)
    requires x.e.k < n.k && Below(n.k, x.B)
    ensures NoDup(After(x, n)) && Ascending(After(x, n))
  {
    AfterAt(x, n);
    hide After;
    var L, L', m := x.All(), After(x, n), |x.A|;
    forall i, j | 0 <= i < j < |L'| ensures L'[i].k < L'[j].k && L'[i].ch != L'[j].ch {
      if i == m + 1 {
        assert L[j - 1].k >= x.B[0].k;
      } else if j == m + 1 {
        assert L[i].k <= L[m].k;
      }
    }
  }

  /** A node `x.e` gives up its tail to the new node `n`: the lists below stay as they were. */
  lemma {:induction false} SplitHere(g: Graph, g': Graph, leaves: set<Ptr>, leaves': set<Ptr>, x: Ctx, l: nat, n: IdxEntry, changed: set<Ptr>)
    requires Tree(g, leaves, x.All(), l)
    requires Same(g, g', changed) && g'.Keys !! leaves' && leaves <= leaves'
    requires n.ch !in g && n.ch !in leaves
    requires forall p | p in changed && p in g && p != x.e.ch :: !AtOrBelow(g, x.All(), l, l, p)
    requires if l == 0 then n.ch in leaves' && x.e.k < n.k && Below(n.k, x.B)
             else x.e.ch in g' && g'[x.e.ch] != [] && n.ch in g' && g'[n.ch] != [] && Kids(g', x.e) + Kids(g', n) == Kids(g, x.e)
    ensures Tree(g', leaves', After(x, n), l)
    ensures forall i | 0 <= i < l :: Level(g', After(x, n), l, i) == Level(g, x.All(), l, i)
  {
    AfterAt(x, n);
    if l == 0 {
      AfterOrdered(x, n);
    } else {
      SplitInner(g, g', leaves, leaves', x, l, n, changed);
    }
  }

  lemma {:induction false} SplitInner(g: Graph, g': Graph, leaves: set<Ptr>, leaves': set<Ptr>, x: Ctx, l: nat, n: IdxEntry, changed: set<Ptr>)
    requires l > 0 && Tree(g, leaves, x.All(), l)
    requires Same(g, g', changed) && g'.Keys !! leaves' && leaves <= leaves'
    requires forall p | p in changed && p in g && p != x.e.ch :: !AtOrBelow(g, x.All(), l, l, p)
    requires x.e.ch in g' && g'[x.e.ch] != [] && n.ch in g' && g'[n.ch] != [] && Kids(g', x.e) + Kids(g', n) == Kids(g, x.e)
    ensures Tree(g', leaves', After(x, n), l)
    ensures forall i | 0 <= i < l :: Level(g', After(x, n), l, i) == Level(g, x.All(), l, i)
  {
    var L, K, k := x.All(), ExpandAll(g, x.All()), l - 1;
    TreeOrdered(g, leaves, L, l);
    AfterClosed(g, g', leaves, x, l, n, changed);
    SplitExpand(g, g', x, n);
    NotDeeper(g, leaves, x, l, changed);
    hide After, Kids, ExpandAll;
    FrameBelow(g, g', leaves, leaves', K, k, changed);
  }

  /** Only the singled-out node of the level is among the changed ones. */
  lemma {:induction false} AfterClosed(g: Graph, g': Graph, leaves: set<Ptr>, x: Ctx, l: nat, n: IdxEntry, changed: set<Ptr>)
    requires l > 0 && Tree(g, leaves, x.All(), l) && Same(g, g', changed)
    requires forall p | p in changed && p in g && p != x.e.ch :: !AtOrBelow(g, x.All(), l, l, p)
    requires x.e.ch in g' && g'[x.e.ch] != [] && n.ch in g' && g'[n.ch] != []
    ensures Closed(g', After(x, n))
    ensures forall i | 0 <= i < |x.All()| && x.All()[i].ch != x.e.ch :: Kids(g, x.All()[i]) == Kids(g', x.All()[i])
  {
    AfterAt(x, n);
    hide After, Kids, ExpandAll;
    var L := x.All();
    forall i | 0 <= i < |L| && L[i].ch != x.e.ch ensures L[i].ch !in changed && Kids(g, L[i]) == Kids(g', L[i]) {
      assert Has(Level(g, L, l, l), L[i].ch);
      KidsSame(g, g', L[i]);
    }
  }

  lemma {:induction false} NotDeeper(g: Graph, leaves: set<Ptr>, x: Ctx, l: nat, changed: set<Ptr>)
    requires l > 0 && Tree(g, leaves, x.All(), l)
    requires forall p | p in changed && p in g && p != x.e.ch :: !AtOrBelow(g, x.All(), l, l, p)
    ensures var K, k := ExpandAll(g, x.All()), l - 1;
      forall p | p in changed && p in g :: !AtOrBelow(g, K, k, k, p)
  {
    var L, K, k := x.All(), ExpandAll(g, x.All()), l - 1;
    assert L[|x.A|] == x.e;
    hide ExpandAll;
    forall p | p in changed && p in g ensures !AtOrBelow(g, K, k, k, p) {
      if p == x.e.ch {
        assert Has(L, p);
        NotBelow(g, leaves, K, k, L, l, p);
      } else {
        forall i | 0 <= i <= k ensures !Has(Level(g, K, k, i), p) {
          assert !Has(Level(g, L, l, i), p);
        }
      }
    }
  }

  lemma {:induction false} KidsSame(g: Graph, g': Graph, e: IdxEntry)
    requires e.ch in g && e.ch in g' && g[e.ch] == g'[e.ch]
    ensures Kids(g, e) == Kids(g', e)
  {
  }

  lemma {:induction false} SplitExpand(g: Graph, g': Graph, x: Ctx, n: IdxEntry)
    requires NoDup(x.All())
    requires forall i | 0 <= i < |x.All()| && x.All()[i].ch != x.e.ch :: Kids(g, x.All()[i]) == Kids(g', x.All()[i])
    requires Kids(g', x.e) + Kids(g', n) == Kids(g, x.e)
    ensures ExpandAll(g', After(x, n)) == ExpandAll(g, x.All())
  {
    hide Kids, ExpandAll;
    SidesAgree(g, g', x);
    ExpandAround(g, x.A, x.e, x.B);
    ExpandAround(g', x.A, x.e, [n] + x.B);
    ExpandAround(g', [], n, x.B);
    ExpandEmpty(g');
    assert [] + [n] + x.B == [n] + x.B;
    Regroup(ExpandAll(g, x.A), Kids(g', x.e), Kids(g', n), ExpandAll(g, x.B));
  }

  lemma {:induction false} Regroup(a: seq<IdxEntry>, b: seq<IdxEntry>, c: seq<IdxEntry>, d: seq<IdxEntry>)
    ensures a + b + ([] + c + d) == a + (b + c) + d
  {
  }

  lemma {:induction false} HasAtOrBelow(g: Graph, top: seq<IdxEntry>, h: nat, l: nat, p: Ptr)
    requires l <= h && Has(Level(g, top, h, l), p)
    ensures AtOrBelow(g, top, h, l, p)
  {
  }

  lemma {:induction false} InsertSome(ks: seq<IdxEntry>, c: nat, n: IdxEntry)
    requires c < |ks|
    ensures InsertAt(ks, c, n) != []
  {
  }

  /** A split below the top: the split-off node becomes the next child of the parent. */
  lemma {:induction false} AddKid(g: Graph, g': Graph, leaves: set<Ptr>, leaves': set<Ptr>, top: seq<IdxEntry>, h: nat,
               l: nat, y: Ctx, c: nat, n: IdxEntry)
    requires Tree(g, leaves, top, h) && l < h && y.All() == Level(g, top, h, l + 1)
    requires y.e.ch in g && c < |g[y.e.ch]|
    requires Same(g, g', {y.e.ch, g[y.e.ch][c].ch, n.ch}) && g'.Keys !! leaves' && leaves <= leaves'
    requires n.ch !in g && n.ch !in leaves
    requires y.e.ch in g' && g'[y.e.ch] == InsertAt(g[y.e.ch], c, n)
    requires var x := Down(g, y, c);
      if l == 0 then n.ch in leaves' && x.e.k < n.k && Below(n.k, x.B)
      else x.e.ch in g' && g'[x.e.ch] != [] && n.ch in g' && g'[n.ch] != [] && Kids(g', x.e) + Kids(g', n) == Kids(g, x.e)
    ensures Tree(g', leaves', top, h)
    ensures Level(g', top, h, l) == After(Down(g, y, c), n)
    ensures forall i | 0 <= i <= h && i != l :: Level(g', top, h, i) == Level(g, top, h, i)
  {
    hide Kids, ExpandAll, After, Down, Ctx.All, Tree, Closed, NoDup, Ascending, AtOrBelow, InsertAt, Has, Same, Below;
    PathFacts(g, leaves, top, h, l, y, c);
    var q, x := y.e.ch, Down(g, y, c);
    var changed := {q, g[q][c].ch, n.ch};
    HasAtOrBelow(g, top, h, l, x.e.ch);
    InsertSome(g[q], c, n);
    SplitHere(g, g', leaves, leaves', x, l, n, changed);
    ParentExpand(g, g', leaves, l, y, c, n);
    Rebuild(g, g', leaves, leaves', top, h, l, q, changed, After(x, n));
    LevelsBelow(g, g', top, h, l, x.All(), After(x, n));
  }

  lemma {:induction false} HasItself(x: Ctx)
    ensures Has(x.All(), x.e.ch)
  {
    assert x.All()[|x.A|] == x.e;
  }

  /** Where the parent and the child of a path step occur. */
  lemma {:induction false} PathFacts(g: Graph, leaves: set<Ptr>, top: seq<IdxEntry>, h: nat, l: nat, y: Ctx, c: nat)
    requires Tree(g, leaves, top, h) && l < h && y.All() == Level(g, top, h, l + 1)
    requires y.e.ch in g && c < |g[y.e.ch]|
    ensures c < |Kids(g, y.e)|
    ensures var x := Down(g, y, c);
      && x.All() == Level(g, top, h, l) && x.e.ch == g[y.e.ch][c].ch
      && Tree(g, leaves, x.All(), l) && Tree(g, leaves, y.All(), l + 1)
      && Has(x.All(), x.e.ch) && Has(y.All(), y.e.ch)
      && !AtOrBelow(g, x.All(), l, l, y.e.ch)
  {
    hide *;
    DownKid(g, y, c);
    var x := Down(g, y, c);
    HasItself(x);
    HasItself(y);
    DownAll(g, y, c);
    LevelDown(g, top, h, l);
    TreeLevel(g, leaves, top, h, l);
    TreeLevel(g, leaves, top, h, l + 1);
    ParentAbove(g, leaves, top, h, l, y.e.ch);
  }

  lemma {:induction false} DownKid(g: Graph, y: Ctx, c: nat)
    requires y.e.ch in g && c < |g[y.e.ch]|
    ensures c < |Kids(g, y.e)| && Down(g, y, c).e.ch == g[y.e.ch][c].ch
  {
  }

  lemma {:induction false} ParentAbove(g: Graph, leaves: set<Ptr>, top: seq<IdxEntry>, h: nat, l: nat, q: Ptr)
    requires Tree(g, leaves, top, h) && l < h && Has(Level(g, top, h, l + 1), q)
    ensures !AtOrBelow(g, Level(g, top, h, l), l, l, q)
  {
    hide Tree, AtOrBelow, Has, ExpandAll, Level;
    TreeLevel(g, leaves, top, h, l);
    TreeLevel(g, leaves, top, h, l + 1);
    NotBelow(g, leaves, Level(g, top, h, l), l, Level(g, top, h, l + 1), l + 1, q);
  }

  lemma {:induction false} ParentExpand(g: Graph, g': Graph, leaves: set<Ptr>, l: nat, y: Ctx, c: nat, n: IdxEntry)
    requires Tree(g, leaves, y.All(), l + 1) && y.e.ch in g && c < |g[y.e.ch]|
    requires n.ch !in g && Same(g, g', {y.e.ch, g[y.e.ch][c].ch, n.ch})
    requires y.e.ch in g' && g'[y.e.ch] == InsertAt(g[y.e.ch], c, n)
    ensures ExpandAll(g', y.All()) == After(Down(g, y, c), n)
  {
    var L, p := y.All(), g[y.e.ch][c].ch;
    assert L[|y.A|] == y.e;
    InsertKids(g, g', y.e, c, n);
    TreeOrdered(g, leaves, L, l + 1);
    assert Has(L, y.e.ch);
    hide Kids, ExpandAll;
    if Has(L, p) {
      KidHas(g, L, y.e.ch, c);
      OneLevel(g, leaves, ExpandAll(g, L), l, L, l + 1, p);
    }
    forall i | 0 <= i < |L| && L[i].ch != y.e.ch ensures Kids(g, L[i]) == Kids(g', L[i]) {
      KidsSame(g, g', L[i]);
    }
    ExpandChanged(g, g', y);
    Regroup2(ExpandAll(g, y.A), Kids(g, y.e), c, n, ExpandAll(g, y.B));
  }

  lemma {:induction false} InsertKids(g: Graph, g': Graph, e: IdxEntry, c: nat, n: IdxEntry)
    requires e.ch in g && c < |g[e.ch]| && e.ch in g' && g'[e.ch] == InsertAt(g[e.ch], c, n)
    ensures c < |Kids(g, e)| && Kids(g', e) == InsertAt(Kids(g, e), c, n)
    ensures Kids(g, e)[c].ch == g[e.ch][c].ch
  {
  }

  lemma {:induction false} Regroup2(a: seq<IdxEntry>, ks: seq<IdxEntry>, c: nat, n: IdxEntry, b: seq<IdxEntry>)
    requires c < |ks|
    ensures a + InsertAt(ks, c, n) + b == (a + ks[..c]) + [ks[c]] + ([n] + (ks[c + 1..] + b))
  {
    assert ks[..c + 1] == ks[..c] + [ks[c]];
  }

  /** A valid new level `l` whose parents are in place makes the whole tree valid again. */
  lemma {:induction false} Rebuild(g: Graph, g': Graph, leaves: set<Ptr>, leaves': set<Ptr>, top: seq<IdxEntry>, h: nat, l: nat,
                q: Ptr, changed: set<Ptr>, L': seq<IdxEntry>)
    requires Tree(g, leaves, top, h) && l < h && Same(g, g', changed)
    requires forall d | d in changed && d in g && d != q :: AtOrBelow(g, top, h, l, d)
    requires Has(Level(g, top, h, l + 1), q) && q in g' && g'[q] != []
    requires ExpandAll(g', Level(g, top, h, l + 1)) == L' && Tree(g', leaves', L', l)
    ensures Tree(g', leaves', top, h) && Level(g', top, h, l) == L'
    ensures forall i | l < i <= h :: Level(g', top, h, i) == Level(g, top, h, i)
  {
    hide ExpandAll, Tree;
    FrameAbove(g, g', leaves, top, h, l + 1, changed);
    LevelDown(g', top, h, l);
    forall i | l < i <= h ensures ClosedAt(g', top, h, i) {
      StillClosed(g, g', leaves, top, h, l, i, q, changed);
    }
    TreeIntro(g', leaves', top, h, l);
  }

  lemma {:induction false} StillClosed(g: Graph, g': Graph, leaves: set<Ptr>, top: seq<IdxEntry>, h: nat, l: nat, i: nat, q: Ptr, changed: set<Ptr>)
    requires Tree(g, leaves, top, h) && l < i <= h && Same(g, g', changed)
    requires forall d | d in changed && d in g && d != q :: AtOrBelow(g, top, h, l, d)
    requires q in g' && g'[q] != []
    ensures Closed(g', Level(g, top, h, i))
  {
    TreeLevel(g, leaves, top, h, i);
    var M := Level(g, top, h, i);
    forall j | 0 <= j < |M| ensures M[j].ch in g' && g'[M[j].ch] != [] {
      var d := M[j].ch;
      if d in changed && d != q {
        var k :| 0 <= k <= l && Has(Level(g, top, h, k), d);
        TreeLevel(g, leaves, top, h, k);
        OneLevel(g, leaves, Level(g, top, h, k), k, M, i, d);
      }
    }
  }

  /** Two trees whose levels `l` have the same levels below have the same levels below `l`. */
  lemma {:induction false} LevelsBelow(g: Graph, g': Graph, top: seq<IdxEntry>, h: nat, l: nat, L: seq<IdxEntry>, L': seq<IdxEntry>)
    requires l <= h && Level(g, top, h, l) == L && Level(g', top, h, l) == L'
    requires forall i | 0 <= i < l :: Level(g', L', l, i) == Level(g, L, l, i)
    ensures forall i | 0 <= i < l :: Level(g', top, h, i) == Level(g, top, h, i)
  {
    forall i | 0 <= i < l ensures Level(g', top, h, i) == Level(g, top, h, i) {
      LevelTwice(g, top, h, l, i);
      LevelTwice(g', top, h, l, i);
    }
  }

  lemma {:induction false} LevelTwice(g: Graph, top: seq<IdxEntry>, h: nat, l: nat, i: nat)
    requires i <= l <= h
    ensures Level(g, Level(g, top, h, l), l, i) == Level(g, top, h, i)
    decreases h
  {
    if l < h { LevelTwice(g, ExpandAll(g, top), h - 1, l, i); }
  }

  // ---------------------------------------------------------------- shrinking

  /** The next node takes over the key range of a removed left neighbour that has no left sibling under its parent. */
  function Lower(B: seq<IdxEntry>, k: Key): seq<IdxEntry> {
    if B == [] then [] else [IdxEntry(k, B[0].ch)] + B[1..]
  }

  /** The list without its singled-out node. With `left` the right neighbour takes over the key range, else the left one. */
  function Removed(x: Ctx, left: bool): seq<IdxEntry> {
    x.A + if left then Lower(x.B, x.e.k) else x.B
  }

  function RemoveKid(ks: seq<IdxEntry>, c: nat): seq<IdxEntry>
    requires c < |ks| && |ks| >= 2
  {
    if c == 0 then [IdxEntry(ks[0].k, ks[1].ch)] + ks[2..] else ks[..c] + ks[c + 1..]
  }

  /** From `p` on level `l` single children lead down to `leaf`. */
  predicate Chain(g: Graph, p: Ptr, l: nat, leaf: Ptr)
    decreases l
  {
    if l == 0 then p == leaf else p in g && |g[p]| == 1 && Chain(g, g[p][0].ch, l - 1, leaf)
  }

  function ChainNodes(g: Graph, p: Ptr, l: nat): set<Ptr>
    decreases l
  {
    {p} + if l > 0 && p in g && g[p] != [] then ChainNodes(g, g[p][0].ch, l - 1) else {}
  }

  lemma {:induction false} ChainAt(g: Graph, leaves: set<Ptr>, L: seq<IdxEntry>, l: nat, p: Ptr, d: Ptr)
    requires Tree(g, leaves, L, l) && Has(L, p) && d in ChainNodes(g, p, l)
    ensures AtOrBelow(g, L, l, l, d)
    decreases l
  {
    if d == p {
      assert Has(Level(g, L, l, l), d);
    } else {
      KidHas(g, L, p, 0);
      var L', l' := ExpandAll(g, L), l - 1;
      ChainAt(g, leaves, L', l', g[p][0].ch, d);
      var i :| 0 <= i <= l' && Has(Level(g, L', l', i), d);
      assert Level(g, L, l, i) == Level(g, L', l', i);
    }
  }

  lemma {:induction false} ChainDeeper(g: Graph, leaves: set<Ptr>, L: seq<IdxEntry>, l: nat, p: Ptr, d: Ptr)
    requires Tree(g, leaves, L, l) && Has(L, p) && d in ChainNodes(g, p, l) && d != p
    ensures !Has(L, d)
  {
    KidHas(g, L, p, 0);
    var L', l' := ExpandAll(g, L), l - 1;
    ChainAt(g, leaves, L', l', g[p][0].ch, d);
    if Has(L, d) { NotBelow(g, leaves, L', l', L, l, d); }
  }

  lemma {:induction false} RemovedAt(x: Ctx, left: bool)
    ensures |Removed(x, left)| == |x.All()| - 1
    ensures forall i | 0 <= i < |x.A| :: Removed(x, left)[i] == x.All()[i]
    ensures forall i | |x.A| <= i < |Removed(x, left)| :: Removed(x, left)[i].ch == x.All()[i + 1].ch
    ensures forall i | |x.A| <= i < |Removed(x, left)| ::
      Removed(x, left)[i].k == if left && i == |x.A| then x.All()[i].k else x.All()[i + 1].k
    ensures x.All()[|x.A|] == x.e
  {
  }

  lemma {:induction false} RemovedOrdered(x: Ctx, left: bool)
    requires NoDup(x.All()) && Ascending(x.All())
    ensures NoDup(Removed(x, left)) && Ascending(Removed(x, left)) && !Has(Removed(x, left), x.e.ch)
  {
    RemovedAt(x, left);
    hide Removed;
  }

  lemma {:induction false} ExpandLower(g: Graph, B: seq<IdxEntry>, k: Key)
    requires Closed(g, B)
    ensures ExpandAll(g, Lower(B, k)) == Lower(ExpandAll(g, B), k)
  {
    if B != [] {
      var C, e := Lower(B, k), IdxEntry(k, B[0].ch);
      assert C[0] == e && C[1..] == B[1..];
      LowerKids(Kids(g, B[0]), Kids(g, e), ExpandAll(g, B[1..]), k);
    }
  }

  lemma {:induction false} LowerKids(a: seq<IdxEntry>, b: seq<IdxEntry>, c: seq<IdxEntry>, k: Key)
    requires a != [] && b == [IdxEntry(k, a[0].ch)] + a[1..]
    ensures b + c == Lower(a + c, k)
  {
  }

  /** Nodes that may differ: those of the branch that goes, and some outside the tree. */
  predicate Dropped(g: Graph, L: seq<IdxEntry>, l: nat, p: Ptr, changed: set<Ptr>) {
    forall d | d in changed && d in g :: d in ChainNodes(g, p, l) || !AtOrBelow(g, L, l, l, d)
  }

  lemma {:induction false} PruneDown(g: Graph, g': Graph, leaves: set<Ptr>, leaves': set<Ptr>, x: Ctx, l: nat,
                                     leaf: Ptr, left: bool, changed: set<Ptr>) returns (z: Ctx)
    requires Tree(g, leaves, x.All(), l) && Chain(g, x.e.ch, l, leaf)
    requires Same(g, g', changed) && Dropped(g, x.All(), l, x.e.ch, changed)
    requires g'.Keys !! leaves' && leaves - {leaf} <= leaves'
    ensures Tree(g', leaves', Removed(x, left), l)
    ensures z.All() == Level(g, x.All(), l, 0) && z.e.ch == leaf
    ensures Level(g', Removed(x, left), l, 0) == Removed(z, left)
    decreases l
  {
    if l == 0 {
      z := x;
      RemovedAt(x, left);
      RemovedOrdered(x, left);
    } else {
      var x', L, p := Down(g, x, 0), x.All(), x.e.ch;
      assert L[|x.A|] == x.e;
      PruneStep(g, g', leaves, x, l, leaf, left, changed);
      hide ExpandAll, Kids, Removed, Down, Ctx.All;
      z := PruneDown(g, g', leaves, leaves', x', l - 1, leaf, left, changed);
    }
  }

  lemma {:induction false} PruneStep(g: Graph, g': Graph, leaves: set<Ptr>, x: Ctx, l: nat, leaf: Ptr, left: bool, changed: set<Ptr>)
    requires l > 0 && Tree(g, leaves, x.All(), l) && Chain(g, x.e.ch, l, leaf)
    requires Same(g, g', changed) && Dropped(g, x.All(), l, x.e.ch, changed)
    ensures |Kids(g, x.e)| == 1
    ensures var x' := Down(g, x, 0);
      && x'.All() == ExpandAll(g, x.All()) && x'.e.ch == g[x.e.ch][0].ch && x'.e.k == x.e.k
      && ExpandAll(g', Removed(x, left)) == Removed(x', left)
      && Dropped(g, x'.All(), l - 1, x'.e.ch, changed)
    ensures Closed(g', Removed(x, left))
  {
    var L, p, x' := x.All(), x.e.ch, Down(g, x, 0);
    assert L[|x.A|] == x.e;
    DownAll(g, x, 0);
    TreeOrdered(g, leaves, L, l);
    PruneSides(g, g', leaves, x, l, changed);
    PruneExpand(g, g', x, left);
    DroppedDown(g, leaves, L, l, p, changed);
    RemovedAt(x, left);
  }

  lemma {:induction false} PruneSides(g: Graph, g': Graph, leaves: set<Ptr>, x: Ctx, l: nat, changed: set<Ptr>)
    requires l > 0 && Tree(g, leaves, x.All(), l) && NoDup(x.All())
    requires Same(g, g', changed) && Dropped(g, x.All(), l, x.e.ch, changed)
    ensures forall i | 0 <= i < |x.All()| && x.All()[i].ch != x.e.ch ::
      x.All()[i].ch in g' && g'[x.All()[i].ch] == g[x.All()[i].ch] && Kids(g, x.All()[i]) == Kids(g', x.All()[i])
  {
    var L, p := x.All(), x.e.ch;
    assert L[|x.A|] == x.e && Has(L, p);
    hide ExpandAll, Kids;
    forall i | 0 <= i < |L| && L[i].ch != p
      ensures L[i].ch in g' && g'[L[i].ch] == g[L[i].ch] && Kids(g, L[i]) == Kids(g', L[i])
    {
      var d := L[i].ch;
      assert Has(Level(g, L, l, l), d);
      if d in changed { ChainDeeper(g, leaves, L, l, p, d); }
      KidsSame(g, g', L[i]);
    }
  }

  lemma {:induction false} PruneExpand(g: Graph, g': Graph, x: Ctx, left: bool)
    requires NoDup(x.All()) && Closed(g, x.All()) && x.e.ch in g && |g[x.e.ch]| == 1
    requires forall i | 0 <= i < |x.All()| && x.All()[i].ch != x.e.ch ::
      x.All()[i].ch in g' && g'[x.All()[i].ch] == g[x.All()[i].ch] && Kids(g, x.All()[i]) == Kids(g', x.All()[i])
    ensures |Kids(g, x.e)| == 1
    ensures ExpandAll(g', Removed(x, left)) == Removed(Down(g, x, 0), left)
  {
    assert x.All()[|x.A|] == x.e;
    OnlyKid(g, x);
    CtxApart(x);
    forall i | 0 <= i < |x.B| ensures x.B[i].ch in g' && g'[x.B[i].ch] != [] { assert x.All()[|x.A| + 1 + i] == x.B[i]; }
    hide ExpandAll, Kids;
    SidesAgree(g, g', x);
    ExpandRemoved(g', x, left);
  }

  lemma {:induction false} OnlyKid(g: Graph, x: Ctx)
    requires x.e.ch in g && |g[x.e.ch]| == 1
    ensures |Kids(g, x.e)| == 1 && Kids(g, x.e)[0].k == x.e.k
    ensures Down(g, x, 0).A == ExpandAll(g, x.A) && Down(g, x, 0).B == ExpandAll(g, x.B) && Down(g, x, 0).e.k == x.e.k
  {
    hide ExpandAll;
  }

  lemma {:induction false} ExpandRemoved(g: Graph, x: Ctx, left: bool)
    requires Closed(g, x.B)
    ensures ExpandAll(g, Removed(x, left)) == ExpandAll(g, x.A) + if left then Lower(ExpandAll(g, x.B), x.e.k) else ExpandAll(g, x.B)
  {
    hide ExpandAll, Closed, Lower;
    if left {
      ExpandLower(g, x.B, x.e.k);
      ExpandConcat(g, x.A, Lower(x.B, x.e.k));
    } else {
      ExpandConcat(g, x.A, x.B);
    }
  }

  lemma {:induction false} DroppedDown(g: Graph, leaves: set<Ptr>, L: seq<IdxEntry>, l: nat, p: Ptr, changed: set<Ptr>)
    requires l > 0 && Tree(g, leaves, L, l) && Has(L, p) && Dropped(g, L, l, p, changed)
    ensures p in g && g[p] != [] && Dropped(g, ExpandAll(g, L), l - 1, g[p][0].ch, changed)
  {
    var L', l' := ExpandAll(g, L), l - 1;
    hide ExpandAll;
    forall d | d in changed && d in g ensures d in ChainNodes(g, g[p][0].ch, l') || !AtOrBelow(g, L', l', l', d) {
      if d == p {
        NotBelow(g, leaves, L', l', L, l, p);
      } else if !AtOrBelow(g, L, l, l, d) {
        forall i | 0 <= i <= l' ensures !Has(Level(g, L', l', i), d) {
          assert !Has(Level(g, L, l, i), d);
        }
      }
    }
  }

  /** Removing the branch of single children below child `c` of `y.e`: exactly its leaf disappears from level 0. */
  lemma {:induction false} Prune(g: Graph, g': Graph, leaves: set<Ptr>, leaves': set<Ptr>, top: seq<IdxEntry>, h: nat,
              l: nat, y: Ctx, c: nat, leaf: Ptr, changed: set<Ptr>) returns (z: Ctx)
    requires Tree(g, leaves, top, h) && l < h && y.All() == Level(g, top, h, l + 1)
    requires y.e.ch in g && c < |g[y.e.ch]| && |g[y.e.ch]| >= 2 && Chain(g, g[y.e.ch][c].ch, l, leaf)
    requires changed == {y.e.ch} + ChainNodes(g, g[y.e.ch][c].ch, l)
    requires Same(g, g', changed) && y.e.ch in g' && g'[y.e.ch] == RemoveKid(g[y.e.ch], c)
    requires g'.Keys !! leaves' && leaves - {leaf} <= leaves'
    ensures Tree(g', leaves', top, h)
    ensures z.All() == Level(g, top, h, 0) && z.e.ch == leaf
    ensures Level(g', top, h, 0) == Removed(z, c == 0)
  {
    var q, x := y.e.ch, Down(g, y, c);
    PathFacts(g, leaves, top, h, l, y, c);
    PruneParent(g, g', leaves, l, y, c, changed);
    forall d | d in changed && d in g && d != q ensures AtOrBelow(g, top, h, l, d) {
      ChainAt(g, leaves, x.All(), l, x.e.ch, d);
      var i :| 0 <= i <= l && Has(Level(g, x.All(), l, i), d);
      LevelTwice(g, top, h, l, i);
      assert Has(Level(g, top, h, i), d);
    }
    hide ExpandAll, Kids, Removed, Down, Ctx.All, Tree, Closed, NoDup, Ascending;
    z := PruneDown(g, g', leaves, leaves', x, l, leaf, c == 0, changed);
    Rebuild(g, g', leaves, leaves', top, h, l, q, changed, Removed(x, c == 0));
    LevelTwice(g, top, h, l, 0);
    LevelTwice(g', top, h, l, 0);
  }

  lemma {:induction false} PruneParent(g: Graph, g': Graph, leaves: set<Ptr>, l: nat, y: Ctx, c: nat, changed: set<Ptr>)
    requires Tree(g, leaves, y.All(), l + 1) && y.e.ch in g && c < |g[y.e.ch]| && |g[y.e.ch]| >= 2
    requires changed == {y.e.ch} + ChainNodes(g, g[y.e.ch][c].ch, l)
    requires Same(g, g', changed) && y.e.ch in g' && g'[y.e.ch] == RemoveKid(g[y.e.ch], c)
    ensures ExpandAll(g', y.All()) == Removed(Down(g, y, c), c == 0)
  {
    var L, q, x := y.All(), y.e.ch, Down(g, y, c);
    assert L[|y.A|] == y.e && Has(L, q);
    RemoveKids(g, g', y.e, c);
    TreeOrdered(g, leaves, L, l + 1);
    KidHas(g, L, q, c);
    hide Kids, ExpandAll, Removed, RemoveKid, Down;
    forall i | 0 <= i < |L| && L[i].ch != q ensures Kids(g, L[i]) == Kids(g', L[i]) {
      var d := L[i].ch;
      if d in changed {
        ChainAt(g, leaves, ExpandAll(g, L), l, g[q][c].ch, d);
        NotBelow(g, leaves, ExpandAll(g, L), l, L, l + 1, d);
      }
      KidsSame(g, g', L[i]);
    }
    ExpandChanged(g, g', y);
    RemoveRegroup(g, y, c);
  }

  lemma {:induction false} RemoveKids(g: Graph, g': Graph, e: IdxEntry, c: nat)
    requires e.ch in g && c < |g[e.ch]| && |g[e.ch]| >= 2 && e.ch in g' && g'[e.ch] == RemoveKid(g[e.ch], c)
    ensures |Kids(g, e)| == |g[e.ch]| && Kids(g', e) == RemoveKid(Kids(g, e), c) && Kids(g, e)[0].k == e.k
  {
  }

  lemma {:induction false} RemoveRegroup(g: Graph, y: Ctx, c: nat)
    requires c < |Kids(g, y.e)| && |Kids(g, y.e)| >= 2
    ensures ExpandAll(g, y.A) + RemoveKid(Kids(g, y.e), c) + ExpandAll(g, y.B) == Removed(Down(g, y, c), c == 0)
  {
    var ks := Kids(g, y.e);
    hide Kids, ExpandAll;
  }
}
