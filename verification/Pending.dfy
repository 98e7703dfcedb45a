/**
 * The upward phase of an insert. A split leaves a new (key, pointer) pair that the parent does not hold
 * yet. The logical tree has the pair in place already, so that each step of the phase, which moves the
 * pair one level up, keeps the logical tree well formed and its leaf list fixed.
 */
module Pending {
  import opened Types
  import opened Levels
  import opened TreeSteps
  import opened InnerNode

  function KidsOf(n: Inner): seq<IdxEntry> {
    if NodeOk(n) then Children(n) else []
  }

  function GraphOf(inner: map<Ptr, Inner>): Graph {
    map p | p in inner :: KidsOf(inner[p])
  }

  function Top(root: Ptr): seq<IdxEntry> { [IdxEntry(0, root)] }

  /** The top list while the root itself waits for a sibling. */
  function TopWith(root: Ptr, n: IdxEntry): seq<IdxEntry> { [IdxEntry(0, root), n] }

  predicate PathAt(g: Graph, top: seq<IdxEntry>, h: nat, i: nat, parray: seq<Ptr>, ppos: seq<nat>)
    requires i <= h < |parray| && h < |ppos|
  {
    Has(Level(g, top, h, i), parray[i]) && (i > 0 ==> parray[i] in g && ppos[i] < |g[parray[i]]|)
  }

  /** The recorded path is a path of the tree from level `lev` up. */
  predicate PathFrom(g: Graph, top: seq<IdxEntry>, h: nat, lev: nat, parray: seq<Ptr>, ppos: seq<nat>) {
    && h < |parray| && h < |ppos| && lev <= h
    && (forall i :: lev <= i <= h ==> PathAt(g, top, h, i, parray, ppos))
    && (forall i :: lev < i <= h ==> PathAt(g, top, h, i, parray, ppos) && g[parray[i]][ppos[i]].ch == parray[i - 1])
  }

  lemma {:induction false} PathDistinct(g: Graph, leaves: set<Ptr>, top: seq<IdxEntry>, h: nat, lev: nat,
                                        parray: seq<Ptr>, ppos: seq<nat>, i: nat, j: nat)
    requires Tree(g, leaves, top, h) && PathFrom(g, top, h, lev, parray, ppos) && lev <= i < j <= h
    ensures parray[i] != parray[j]
  {
    if parray[i] == parray[j] {
      assert PathAt(g, top, h, i, parray, ppos) && PathAt(g, top, h, j, parray, ppos);
      TreeLevel(g, leaves, top, h, i);
      TreeLevel(g, leaves, top, h, j);
      OneLevel(g, leaves, Level(g, top, h, i), i, Level(g, top, h, j), j, parray[i]);
    }
  }

  /** The logical tree: `parray[lev]` already has `n` after child `ppos[lev]`. */
  function WithPending(g: Graph, q: Ptr, c: nat, n: IdxEntry): Graph
    requires q in g && c < |g[q]|
  {
    g[q := InsertAt(g[q], c, n)]
  }

  /** A leaf split: the new leaf follows the old one, and waits to be put into the parent. */
  lemma {:induction false} LeafPending(g: Graph, leaves: set<Ptr>, top: seq<IdxEntry>, h: nat, parray: seq<Ptr>, ppos: seq<nat>,
                                       y: Ctx, n: IdxEntry)
    requires Tree(g, leaves, top, h) && h > 0 && PathFrom(g, top, h, 0, parray, ppos) && n.ch !in leaves && n.ch !in g
    requires y.All() == Level(g, top, h, 1) && y.e.ch == parray[1] && ppos[1] < |Kids(g, y.e)|
    requires Down(g, y, ppos[1]).e.k < n.k && Below(n.k, Down(g, y, ppos[1]).B)
    ensures var g' := WithPending(g, parray[1], ppos[1], n);
      && Tree(g', leaves + {n.ch}, top, h) && PathFrom(g', top, h, 1, parray, ppos)
      && Level(g', top, h, 0) == After(Down(g, y, ppos[1]), n)
  {
    assert PathAt(g, top, h, 1, parray, ppos);
    var g' := WithPending(g, parray[1], ppos[1], n);
    AddKid(g, g', leaves, leaves + {n.ch}, top, h, 0, y, ppos[1], n);
    forall i | 1 <= i <= h
      ensures PathAt(g', top, h, i, parray, ppos) && (i > 1 ==> g'[parray[i]][ppos[i]].ch == parray[i - 1])
    {
      assert PathAt(g, top, h, i, parray, ppos);
      if i > 1 { PathDistinct(g, leaves, top, h, 0, parray, ppos, 1, i); }
    }
  }

  /** A full node `parray[l]` with a pending child splits; the right part becomes pending in the parent. */
  lemma {:induction false} SplitPending(g: Graph, g': Graph, leaves: set<Ptr>, top: seq<IdxEntry>, h: nat, l: nat,
                                        parray: seq<Ptr>, ppos: seq<nat>, m: nat, newp: Ptr)
    requires Tree(g, leaves, top, h) && 0 < l < h && PathFrom(g, top, h, l, parray, ppos)
    requires newp !in g && newp !in leaves
    requires PathAt(g, top, h, l, parray, ppos) && PathAt(g, top, h, l + 1, parray, ppos) && 0 < m < |g[parray[l]]|
    requires var p, q := parray[l], parray[l + 1];
      g' == g[p := g[p][..m]][newp := g[p][m..]][q := InsertAt(g[q], ppos[l + 1], IdxEntry(g[p][m].k, newp))]
    ensures Tree(g', leaves, top, h) && PathFrom(g', top, h, l + 1, parray, ppos)
    ensures Level(g', top, h, 0) == Level(g, top, h, 0)
  {
    var p, q, c := parray[l], parray[l + 1], ppos[l + 1];
    var n := IdxEntry(g[p][m].k, newp);
    PathDistinct(g, leaves, top, h, l, parray, ppos, l, l + 1);
    var y := CtxOf(Level(g, top, h, l + 1), q);
    KidsAt(g, y.e);
    var x := Down(g, y, c);
    assert x.e.ch == p;
    SplitKids(g, g', x.e, n, m);
    AddKid(g, g', leaves, leaves, top, h, l, y, c, n);
    forall i | l + 1 <= i <= h
      ensures PathAt(g', top, h, i, parray, ppos) && (i > l + 1 ==> g'[parray[i]][ppos[i]].ch == parray[i - 1])
    {
      assert PathAt(g, top, h, i, parray, ppos);
      PathDistinct(g, leaves, top, h, l, parray, ppos, l, i);
      if i > l + 1 { PathDistinct(g, leaves, top, h, l, parray, ppos, l + 1, i); }
    }
  }

  lemma {:induction false} SplitKids(g: Graph, g': Graph, e: IdxEntry, n: IdxEntry, m: nat)
    requires e.ch in g && 0 < m < |g[e.ch]| && e.ch in g' && n.ch in g'
    requires g'[e.ch] == g[e.ch][..m] && g'[n.ch] == g[e.ch][m..] && n.k == g[e.ch][m].k
    ensures Kids(g', e) + Kids(g', n) == Kids(g, e)
  {
  }

  /** The root splits: its right part waits beside it in the top list. */
  lemma {:induction false} RootPending(g: Graph, g': Graph, leaves: set<Ptr>, root: Ptr, h: nat, m: nat, newp: Ptr)
    requires Tree(g, leaves, Top(root), h) && h > 0 && newp !in g && newp !in leaves
    requires root in g && 0 < m < |g[root]| && g' == g[root := g[root][..m]][newp := g[root][m..]]
    ensures var n := IdxEntry(g[root][m].k, newp);
      Tree(g', leaves, TopWith(root, n), h) && Level(g', TopWith(root, n), h, 0) == Level(g, Top(root), h, 0)
  {
    var n := IdxEntry(g[root][m].k, newp);
    var x := Ctx([], IdxEntry(0, root), []);
    assert x.All() == Top(root) && After(x, n) == TopWith(root, n);
    SplitKids(g, g', x.e, n, m);
    SplitHere(g, g', leaves, leaves, x, h, n, {root, newp});
  }

  /** The only leaf splits while it is the root. */
  lemma {:induction false} RootLeafPending(g: Graph, leaves: set<Ptr>, root: Ptr, n: IdxEntry)
    requires Tree(g, leaves, Top(root), 0) && n.ch !in g && n.ch !in leaves && 0 < n.k
    ensures Tree(g, leaves + {n.ch}, TopWith(root, n), 0)
  {
    var x := Ctx([], IdxEntry(0, root), []);
    assert x.All() == Top(root) && After(x, n) == TopWith(root, n);
    SplitHere(g, g, leaves, leaves + {n.ch}, x, 0, n, {});
  }

  /** Root growth: a new root holds the old one and its sibling, one level up everywhere. */
  lemma {:induction false} GrowRoot(g: Graph, leaves: set<Ptr>, root: Ptr, n: IdxEntry, h: nat, r: Ptr, ks: seq<IdxEntry>)
    requires Tree(g, leaves, TopWith(root, n), h) && r !in g && r !in leaves
    requires |ks| == 2 && ks[0].ch == root && ks[1] == n
    ensures Tree(g[r := ks], leaves, Top(r), h + 1)
    ensures Level(g[r := ks], Top(r), h + 1, 0) == Level(g, TopWith(root, n), h, 0)
  {
    var g' := g[r := ks];
    var e := IdxEntry(0, r);
    assert Kids(g', e) == TopWith(root, n);
    assert Top(r)[0] == e && Top(r)[1..] == [];
    ExpandEmpty(g');
    assert ExpandAll(g', Top(r)) == TopWith(root, n);
    FrameBelow(g, g', leaves, leaves, TopWith(root, n), h, {r});
  }
}
