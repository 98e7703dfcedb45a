/** Level 0 as a whole: the leaves' contents `Y` along the list `L` of their addresses and low keys. */
module LeafLevel {
  import opened Types
  import opened LeafNode
  import opened Levels
  import opened TreeSteps

  function EntriesOf(x: Leaf): set<IdxEntry> {
    if x.Shape() then Entries(x) else {}
  }

  function Union(Y: seq<Leaf>): set<IdxEntry> {
    if Y == [] then {} else EntriesOf(Y[0]) + Union(Y[1..])
  }

  /** Each leaf is well formed and its keys lie in its range. */
  predicate Fits(L: seq<IdxEntry>, Y: seq<Leaf>) {
    && |L| == |Y|
    && (forall i :: 0 <= i < |L| ==> LeafOk(Y[i]))
    && (forall i, e :: 0 <= i < |L| && e in EntriesOf(Y[i]) ==> L[i].k <= e.k && (i + 1 < |L| ==> e.k < L[i + 1].k))
  }

  function PtrAt(L: seq<IdxEntry>, i: nat): Ptr {
    if i < |L| then L[i].ch else NULL
  }

  /** The live sibling pointers follow the list. */
  predicate Linked(L: seq<IdxEntry>, Y: seq<Leaf>) {
    |L| == |Y| && forall i :: 0 <= i < |L| ==> Y[i].Shape() && Y[i].NextSibling() == PtrAt(L, i + 1)
  }

  // ---------------------------------------------------------------- unions

  lemma {:induction false} UnionConcat(X: seq<Leaf>, Y: seq<Leaf>)
    ensures Union(X + Y) == Union(X) + Union(Y)
  {
    if X == [] {
      assert X + Y == Y;
    } else {
      UnionConcat(X[1..], Y);
      assert (X + Y)[1..] == X[1..] + Y;
    }
  }

  lemma {:induction false} UnionAround(X: seq<Leaf>, y: Leaf, Z: seq<Leaf>)
    ensures Union(X + [y] + Z) == Union(X) + EntriesOf(y) + Union(Z)
  {
    UnionConcat(X + [y], Z);
    UnionConcat(X, [y]);
    assert [y][1..] == [];
  }

  lemma {:induction false} UnionIndex(Y: seq<Leaf>, e: IdxEntry) returns (i: nat)
    requires e in Union(Y)
    ensures i < |Y| && e in EntriesOf(Y[i])
  {
    if e in EntriesOf(Y[0]) { i := 0; } else { i := UnionIndex(Y[1..], e); i := i + 1; }
  }

  lemma {:induction false} UnionHas(Y: seq<Leaf>, i: nat)
    requires i < |Y|
    ensures EntriesOf(Y[i]) <= Union(Y)
  {
    if i > 0 { UnionHas(Y[1..], i - 1); }
  }

  lemma {:induction false} SplitSeq(Y: seq<Leaf>, j: nat)
    requires j < |Y|
    ensures Y == Y[..j] + [Y[j]] + Y[j + 1..]
  {
  }

  // ---------------------------------------------------------------- lookup

  /** An entry whose key the singled-out leaf covers can only be in that leaf. */
  lemma {:induction false} OnlyThere(x: Ctx, Y: seq<Leaf>, e: IdxEntry)
    requires Fits(x.All(), Y) && Ascending(x.All()) && Covers(x, e.k)
    ensures e in Union(Y) <==> e in EntriesOf(Y[|x.A|])
  {
    var j := |x.A|;
    UnionHas(Y, j);
    forall i | 0 <= i < |Y| && i != j ensures e !in EntriesOf(Y[i]) { NotCovered(x, Y, e, i); }
    if e in Union(Y) { var i := UnionIndex(Y, e); }
  }

  lemma {:induction false} NotCovered(x: Ctx, Y: seq<Leaf>, e: IdxEntry, i: nat)
    requires Fits(x.All(), Y) && Ascending(x.All()) && Covers(x, e.k) && i < |Y| && i != |x.A|
    ensures e !in EntriesOf(Y[i])
  {
    var L, j := x.All(), |x.A|;
    assert L[j] == x.e && (x.B != [] ==> L[j + 1] == x.B[0]);
    assert if i < j then L[i + 1].k <= L[j].k else L[j + 1].k <= L[i].k;
  }

  lemma {:induction false} KeyThere(x: Ctx, Y: seq<Leaf>, key: Key)
    requires Fits(x.All(), Y) && Ascending(x.All()) && Covers(x, key)
    ensures HasKey(Union(Y), key) <==> HasKey(EntriesOf(Y[|x.A|]), key)
  {
    forall e: IdxEntry | e.k == key ensures e in Union(Y) <==> e in EntriesOf(Y[|x.A|]) { OnlyThere(x, Y, e); }
  }

  /** No key occurs twice in the whole level. */
  lemma {:induction false} UnionUnique(L: seq<IdxEntry>, Y: seq<Leaf>)
    requires Fits(L, Y) && Ascending(L)
    ensures UniqueKeys(Union(Y))
  {
    forall e, f | e in Union(Y) && f in Union(Y) && e.k == f.k ensures e == f {
      var i := UnionIndex(Y, e);
      var x := Ctx(L[..i], L[i], L[i + 1..]);
      assert x.All() == L;
      OnlyThere(x, Y, f);
    }
  }

  // ---------------------------------------------------------------- updates

  /** One leaf gets another content within its range. */
  lemma {:induction false} Replace(x: Ctx, Y: seq<Leaf>, z: Leaf)
    requires Fits(x.All(), Y) && Linked(x.All(), Y) && LeafOk(z) && z.NextSibling() == Y[|x.A|].NextSibling()
    requires forall e :: e in Entries(z) ==> x.e.k <= e.k && Below(e.k, x.B)
    ensures Fits(x.All(), Y[|x.A| := z]) && Linked(x.All(), Y[|x.A| := z])
  {
    var j := |x.A|;
    assert x.All()[j] == x.e && (x.B != [] ==> x.All()[j + 1] == x.B[0]);
    hide LeafOk;
  }

  lemma {:induction false} ReplaceUnion(Y: seq<Leaf>, j: nat, z: Leaf)
    requires j < |Y|
    ensures Union(Y[j := z]) == Union(Y[..j]) + EntriesOf(z) + Union(Y[j + 1..])
    ensures Union(Y) == Union(Y[..j]) + EntriesOf(Y[j]) + Union(Y[j + 1..])
  {
    SplitSeq(Y, j);
    assert Y[j := z] == Y[..j] + [z] + Y[j + 1..];
    UnionAround(Y[..j], Y[j], Y[j + 1..]);
    UnionAround(Y[..j], z, Y[j + 1..]);
  }

  lemma {:induction false} CoversRange(x: Ctx, Y: seq<Leaf>, e: IdxEntry)
    requires Fits(x.All(), Y) && e in Entries(Y[|x.A|])
    ensures x.e.k <= e.k && Below(e.k, x.B)
  {
    var j := |x.A|;
    assert x.All()[j] == x.e && (x.B != [] ==> x.All()[j + 1] == x.B[0]);
  }

  /** A new key goes into the leaf that covers it. */
  lemma {:induction false} InsertThere(x: Ctx, Y: seq<Leaf>, z: Leaf, e: IdxEntry)
    requires Fits(x.All(), Y) && Linked(x.All(), Y) && Covers(x, e.k) && LeafOk(z)
    requires z.NextSibling() == Y[|x.A|].NextSibling() && Entries(z) == Entries(Y[|x.A|]) + {e}
    ensures Fits(x.All(), Y[|x.A| := z]) && Linked(x.All(), Y[|x.A| := z]) && Union(Y[|x.A| := z]) == Union(Y) + {e}
  {
    forall f | f in Entries(z) ensures x.e.k <= f.k && Below(f.k, x.B) {
      if f != e { CoversRange(x, Y, f); }
    }
    Replace(x, Y, z);
    ReplaceUnion(Y, |x.A|, z);
  }

  lemma {:induction false} RemoveThere(x: Ctx, Y: seq<Leaf>, z: Leaf, e: IdxEntry)
    requires Fits(x.All(), Y) && Linked(x.All(), Y) && Ascending(x.All()) && e in Entries(Y[|x.A|]) && LeafOk(z)
    requires z.NextSibling() == Y[|x.A|].NextSibling() && Entries(z) == Entries(Y[|x.A|]) - {e}
    ensures Fits(x.All(), Y[|x.A| := z]) && Linked(x.All(), Y[|x.A| := z]) && Union(Y[|x.A| := z]) == Union(Y) - {e}
  {
    forall f | f in Entries(z) ensures x.e.k <= f.k && Below(f.k, x.B) { CoversRange(x, Y, f); }
    Replace(x, Y, z);
    ReplaceUnion(Y, |x.A|, z);
    NotElsewhere(x, Y, e);
  }

  lemma {:induction false} NotElsewhere(x: Ctx, Y: seq<Leaf>, e: IdxEntry)
    requires Fits(x.All(), Y) && Ascending(x.All()) && e in Entries(Y[|x.A|])
    ensures e !in Union(Y[..|x.A|]) && e !in Union(Y[|x.A| + 1..])
  {
    var j := |x.A|;
    forall i | 0 <= i < |Y| && i != j ensures e !in EntriesOf(Y[i]) { NotAt(x.All(), Y, e, j, i); }
    if e in Union(Y[..j]) { var i := UnionIndex(Y[..j], e); }
    if e in Union(Y[j + 1..]) { var i := UnionIndex(Y[j + 1..], e); }
  }

  lemma {:induction false} NotAt(L: seq<IdxEntry>, Y: seq<Leaf>, e: IdxEntry, j: nat, i: nat)
    requires Fits(L, Y) && Ascending(L) && i < |L| && j < |L| && i != j && e in EntriesOf(Y[j])
    ensures e !in EntriesOf(Y[i])
  {
    assert if i < j then L[i + 1].k <= L[j].k else L[j + 1].k <= L[i].k;
  }

  // ---------------------------------------------------------------- splitting and removing a leaf

  function SplitView(Y: seq<Leaf>, j: nat, w: Leaf, n: Leaf): seq<Leaf>
    requires j < |Y|
  {
    Y[..j] + [w] + ([n] + Y[j + 1..])
  }

  lemma {:induction false} SplitAt(Y: seq<Leaf>, j: nat, w: Leaf, n: Leaf)
    requires j < |Y|
    ensures var Y' := SplitView(Y, j, w, n);
      && |Y'| == |Y| + 1 && Y'[j] == w && Y'[j + 1] == n
      && (forall i :: 0 <= i < j ==> Y'[i] == Y[i]) && (forall i :: j + 1 < i < |Y'| ==> Y'[i] == Y[i - 1])
  {
  }

  /** The covering leaf splits in two at `r.k`, taking in one new entry. */
  lemma {:induction false} SplitThere(x: Ctx, Y: seq<Leaf>, w: Leaf, n: Leaf, r: IdxEntry, e: IdxEntry)
    requires Fits(x.All(), Y) && Linked(x.All(), Y) && Covers(x, e.k) && LeafOk(w) && LeafOk(n)
    requires Entries(w) + Entries(n) == Entries(Y[|x.A|]) + {e}
    requires (forall f :: f in Entries(w) ==> f.k < r.k) && (forall f :: f in Entries(n) ==> r.k <= f.k)
    requires w.NextSibling() == r.ch && n.NextSibling() == Y[|x.A|].NextSibling()
    ensures Fits(After(x, r), SplitView(Y, |x.A|, w, n)) && Linked(After(x, r), SplitView(Y, |x.A|, w, n))
    ensures Union(SplitView(Y, |x.A|, w, n)) == Union(Y) + {e}
  {
    forall f | f in Entries(w) || f in Entries(n) ensures x.e.k <= f.k && Below(f.k, x.B) {
      assert f in Entries(Y[|x.A|]) + {e};
      if f != e { CoversRange(x, Y, f); }
    }
    SplitFits(x, Y, w, n, r);
    SplitUnion(Y, |x.A|, w, n);
  }

  lemma {:induction false} SplitUnion(Y: seq<Leaf>, j: nat, w: Leaf, n: Leaf)
    requires j < |Y|
    ensures Union(SplitView(Y, j, w, n)) == Union(Y[..j]) + (EntriesOf(w) + EntriesOf(n)) + Union(Y[j + 1..])
    ensures Union(Y) == Union(Y[..j]) + EntriesOf(Y[j]) + Union(Y[j + 1..])
  {
    SplitSeq(Y, j);
    UnionAround(Y[..j], Y[j], Y[j + 1..]);
    UnionAround(Y[..j], w, [n] + Y[j + 1..]);
    UnionConcat([n], Y[j + 1..]);
    assert [n][1..] == [];
  }

  lemma {:induction false} SplitFits(x: Ctx, Y: seq<Leaf>, w: Leaf, n: Leaf, r: IdxEntry)
    requires Fits(x.All(), Y) && Linked(x.All(), Y) && LeafOk(w) && LeafOk(n)
    requires forall f :: f in Entries(w) ==> x.e.k <= f.k < r.k
    requires forall f :: f in Entries(n) ==> r.k <= f.k && Below(f.k, x.B)
    requires w.NextSibling() == r.ch && n.NextSibling() == Y[|x.A|].NextSibling()
    ensures Fits(After(x, r), SplitView(Y, |x.A|, w, n)) && Linked(After(x, r), SplitView(Y, |x.A|, w, n))
  {
    var L, L', Y', j := x.All(), After(x, r), SplitView(Y, |x.A|, w, n), |x.A|;
    AfterAt(x, r);
    SplitAt(Y, j, w, n);
    hide After, SplitView, LeafOk, Entries, Ctx.All;
    forall i | 0 <= i < |L'| ensures LeafOk(Y'[i]) && Y'[i].NextSibling() == PtrAt(L', i + 1) {
      if i > j + 1 { assert LeafOk(Y[i - 1]) && Y[i - 1].NextSibling() == PtrAt(L, i); }
      if i < j { assert LeafOk(Y[i]) && Y[i].NextSibling() == PtrAt(L, i + 1); }
    }
    forall i, e | 0 <= i < |L'| && e in EntriesOf(Y'[i]) ensures L'[i].k <= e.k && (i + 1 < |L'| ==> e.k < L'[i + 1].k) {
      if i > j + 1 { assert e in EntriesOf(Y[i - 1]); }
      if i < j { assert e in EntriesOf(Y[i]); }
    }
  }

  function PruneView(Y: seq<Leaf>, j: nat): seq<Leaf>
    requires j < |Y|
  {
    Y[..j] + Y[j + 1..]
  }

  lemma {:induction false} PruneAt(Y: seq<Leaf>, j: nat)
    requires j < |Y|
    ensures var Y' := PruneView(Y, j);
      && |Y'| == |Y| - 1 && (forall i :: 0 <= i < j ==> Y'[i] == Y[i]) && (forall i :: j <= i < |Y'| ==> Y'[i] == Y[i + 1])
  {
  }

  /** The live sibling pointers follow the list, except that nothing points to leaf `j` any more. */
  predicate LinkedPast(L: seq<IdxEntry>, Y: seq<Leaf>, j: nat) {
    |L| == |Y| && forall i :: 0 <= i < |L| ==> Y[i].Shape() && Y[i].NextSibling() == PtrAt(L, if i + 1 == j then i + 2 else i + 1)
  }

  /**
   * A leaf whose only entry is `e` leaves the level. `Y` already has the left neighbour's live pointer
   * redirected past it; with `left` the right neighbour inherits the key range, otherwise the left one does.
   */
  lemma {:induction false} PruneThere(x: Ctx, Y: seq<Leaf>, left: bool, e: IdxEntry)
    requires Fits(x.All(), Y) && Ascending(x.All()) && Entries(Y[|x.A|]) == {e} && (!left ==> x.A != [])
    requires LinkedPast(x.All(), Y, |x.A|)
    ensures Fits(Removed(x, left), PruneView(Y, |x.A|)) && Linked(Removed(x, left), PruneView(Y, |x.A|))
    ensures Union(PruneView(Y, |x.A|)) == Union(Y) - {e}
  {
    PruneFits(x, Y, left);
    PruneUnion(Y, |x.A|);
    NotElsewhere(x, Y, e);
    hide Fits, Linked, Removed, PruneView, Union, Ctx.All;
  }

  lemma {:induction false} PruneUnion(Y: seq<Leaf>, j: nat)
    requires j < |Y|
    ensures Union(PruneView(Y, j)) == Union(Y[..j]) + Union(Y[j + 1..])
    ensures Union(Y) == Union(Y[..j]) + EntriesOf(Y[j]) + Union(Y[j + 1..])
  {
    SplitSeq(Y, j);
    UnionAround(Y[..j], Y[j], Y[j + 1..]);
    UnionConcat(Y[..j], Y[j + 1..]);
  }

  lemma {:induction false} PruneFits(x: Ctx, Y: seq<Leaf>, left: bool)
    requires Fits(x.All(), Y) && Ascending(x.All()) && (!left ==> x.A != [])
    requires LinkedPast(x.All(), Y, |x.A|)
    ensures Fits(Removed(x, left), PruneView(Y, |x.A|)) && Linked(Removed(x, left), PruneView(Y, |x.A|))
  {
    var L, L', Y', j := x.All(), Removed(x, left), PruneView(Y, |x.A|), |x.A|;
    RemovedAt(x, left);
    PruneAt(Y, j);
    PruneLinked(L, L', Y, Y', j);
    hide Removed, PruneView, LeafOk, Entries, Ctx.All, Linked;
    forall i | 0 <= i < |L'| ensures LeafOk(Y'[i]) { assert LeafOk(Y[if i < j then i else i + 1]); }
    forall i, e | 0 <= i < |L'| && e in EntriesOf(Y'[i]) ensures L'[i].k <= e.k && (i + 1 < |L'| ==> e.k < L'[i + 1].k) {
      var i' := if i < j then i else i + 1;
      assert e in EntriesOf(Y[i']);
      PruneRange(x, left, i, e.k);
    }
  }

  /** A key in the range of a remaining node is in that node's range after the removal. */
  lemma {:induction false} PruneRange(x: Ctx, left: bool, i: nat, key: Key)
    requires Ascending(x.All()) && i < |Removed(x, left)| && |Removed(x, left)| == |x.All()| - 1
    requires var i' := if i < |x.A| then i else i + 1;
      x.All()[i'].k <= key && (i' + 1 < |x.All()| ==> key < x.All()[i' + 1].k)
    ensures var L' := Removed(x, left); L'[i].k <= key && (i + 1 < |L'| ==> key < L'[i + 1].k)
  {
    var L, L', j := x.All(), Removed(x, left), |x.A|;
    RemovedAt(x, left);
    hide Removed, Ctx.All;
    if i >= j { assert L[i].k < L[i + 1].k; }
    if i + 1 == j && j < |L'| { assert L[j].k < L[j + 1].k; }
  }

  lemma {:induction false} PruneLinked(L: seq<IdxEntry>, L': seq<IdxEntry>, Y: seq<Leaf>, Y': seq<Leaf>, j: nat)
    requires LinkedPast(L, Y, j) && j < |L| && |L'| == |L| - 1 && |Y'| == |Y| - 1
    requires forall i :: 0 <= i < |L'| ==> L'[i].ch == L[if i < j then i else i + 1].ch && Y'[i] == Y[if i < j then i else i + 1]
    ensures Linked(L', Y')
  {
  }
}
