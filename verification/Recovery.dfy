/** What recovery finds at each point of an operation on one or two leaves of the chain. */
module Recovery {
  import opened Types
  import opened LeafNode
  import opened Nvm
  import opened LeafSplit
  import opened Levels
  import opened TreeSteps
  import opened LeafLevel

  function Ptrs(L: seq<IdxEntry>): (r: seq<Ptr>)
    ensures |r| == |L| && forall i :: 0 <= i < |L| ==> r[i] == L[i].ch
  {
    seq(|L|, i requires 0 <= i < |L| => L[i].ch)
  }

  /** The image shows leaf `i` of the chain as recovery would see `Y[i]`. */
  ghost predicate ShownAt(img: Image, L: seq<IdxEntry>, Y: seq<Leaf>, i: nat)
    requires i < |L| && i < |Y|
  {
    L[i].ch != NULL && L[i].ch in img.leaf && Obs(img.leaf[L[i].ch], Y[i])
  }

  /** The image shows the chain `L` with contents that recovery sees as `Y`. */
  ghost predicate ShownList(img: Image, L: seq<IdxEntry>, Y: seq<Leaf>) {
    && Linked(L, Y) && img.first == PtrAt(L, 0)
    && forall i :: 0 <= i < |L| ==> ShownAt(img, L, Y, i)
  }

  lemma {:induction false} WalkList(img: Image, L: seq<IdxEntry>, Y: seq<Leaf>, i: nat)
    requires Linked(L, Y) && i <= |L|
    requires forall j :: i <= j < |L| ==> ShownAt(img, L, Y, j)
    ensures Walk(img, PtrAt(L, i), Ptrs(L[i..]), Union(Y[i..]))
    decreases |L| - i
  {
    if i == |L| {
    } else {
      WalkList(img, L, Y, i + 1);
      assert ShownAt(img, L, Y, i);
      assert Ptrs(L[i..])[1..] == Ptrs(L[i + 1..]);
      assert Ptrs(L[i..])[0] == L[i].ch;
      assert Y[i..][0] == Y[i] && Y[i..][1..] == Y[i + 1..];
    }
  }

  lemma {:induction false} ShownRecovers(img: Image, L: seq<IdxEntry>, Y: seq<Leaf>)
    requires ShownList(img, L, Y)
    ensures Recovers(img, Union(Y))
  {
    WalkList(img, L, Y, 0);
    assert L[0..] == L && Y[0..] == Y;
  }

  /** `first_leaf` is, and persistently is, the head of the chain. */
  predicate FirstIs(s: State, p: Ptr) {
    s.firstLow < |s.first| && forall t :: s.firstLow <= t < |s.first| ==> s.first[t] == p
  }

  /** Leaf `i` of the chain is quiet and currently `Y[i]`. */
  predicate QuietAt(s: State, L: seq<IdxEntry>, Y: seq<Leaf>, i: nat)
    requires i < |L| && i < |Y|
  {
    L[i].ch != NULL && L[i].ch in s.cells && Quiet(s.cells[L[i].ch]) && s.cells[L[i].ch].Now() == Y[i]
  }

  /** Everything recovery looks at is persistent. */
  predicate Durable(s: State, L: seq<IdxEntry>, Y: seq<Leaf>) {
    |L| == |Y| && FirstIs(s, PtrAt(L, 0)) && forall i :: 0 <= i < |L| ==> QuietAt(s, L, Y, i)
  }

  lemma {:induction false} QuietObs(s: State, img: Image, L: seq<IdxEntry>, Y: seq<Leaf>, i: nat)
    requires IsImage(s, img) && i < |L| == |Y| && QuietAt(s, L, Y, i)
    ensures ShownAt(img, L, Y, i)
  {
    var p := L[i].ch;
    assert CellImage(s.cells[p], img.leaf[p]);
    ImageObs(s.cells[p], img.leaf[p], Y[i], Y[i]);
  }

  lemma {:induction false} FirstImage(s: State, img: Image, p: Ptr)
    requires IsImage(s, img) && FirstIs(s, p)
    ensures img.first == p
  {
    var W := s.first[s.firstLow..];
    var t :| 0 <= t < |W| && W[t] == img.first;
    assert s.first[s.firstLow + t] == img.first;
  }

  /** A durable state recovers to its contents, whatever the crash leaves. */
  lemma {:induction false} DurableRecovers(s: State, L: seq<IdxEntry>, Y: seq<Leaf>)
    requires Durable(s, L, Y) && Linked(L, Y)
    ensures forall img :: IsImage(s, img) ==> Recovers(img, Union(Y))
  {
    hide Quiet, CellImage, Obs, ShownAt, QuietAt, CellSafe;
    forall img | IsImage(s, img) ensures Recovers(img, Union(Y)) {
      FirstImage(s, img, PtrAt(L, 0));
      forall i | 0 <= i < |L| ensures ShownAt(img, L, Y, i) { QuietObs(s, img, L, Y, i); }
      ShownRecovers(img, L, Y);
    }
  }

  /** As `Durable`, but for leaf `j`. */
  predicate DurableBut(s: State, L: seq<IdxEntry>, Y: seq<Leaf>, j: nat) {
    && |L| == |Y| && j < |L| && L[j].ch != NULL && L[j].ch in s.cells
    && FirstIs(s, PtrAt(L, 0)) && forall i :: 0 <= i < |L| && i != j ==> QuietAt(s, L, Y, i)
  }

  /** One leaf is being changed from `Y[j]` to `z` with the chain unchanged. */
  lemma {:induction false} ChangeSafe(s: State, L: seq<IdxEntry>, Y: seq<Leaf>, j: nat, z: Leaf)
    requires DurableBut(s, L, Y, j) && Linked(L, Y) && Linked(L, Y[j := z]) && Shows(s.cells[L[j].ch], Y[j], z)
    ensures CrashSafe(s, Union(Y), Union(Y[j := z]))
  {
    forall img | IsImage(s, img) ensures Recovers(img, Union(Y)) || Recovers(img, Union(Y[j := z])) {
      FirstImage(s, img, PtrAt(L, 0));
      var x := img.leaf[L[j].ch];
      assert CellImage(s.cells[L[j].ch], x);
      assert Obs(x, Y[j]) || Obs(x, z);
      var Y' := if Obs(x, Y[j]) then Y else Y[j := z];
      OthersShown(s, img, L, Y, j, Y');
      ShownRecovers(img, L, Y');
    }
  }

  lemma {:induction false} OthersShown(s: State, img: Image, L: seq<IdxEntry>, Y: seq<Leaf>, j: nat, Y': seq<Leaf>)
    requires DurableBut(s, L, Y, j) && IsImage(s, img) && |Y'| == |Y| && Linked(L, Y') && img.first == PtrAt(L, 0)
    requires forall i :: 0 <= i < |Y| && i != j ==> Y'[i] == Y[i]
    requires Obs(img.leaf[L[j].ch], Y'[j])
    ensures ShownList(img, L, Y')
  {
    assert ShownAt(img, L, Y', j);
    hide Quiet, CellImage, Obs, IsImage, Linked, QuietAt;
    hide ShownAt;
    forall i | 0 <= i < |L| ensures ShownAt(img, L, Y', i) {
      if i != j { ShownOther(s, img, L, Y, i, Y'); }
    }
  }

  lemma {:induction false} ShownOther(s: State, img: Image, L: seq<IdxEntry>, Y: seq<Leaf>, i: nat, Y': seq<Leaf>)
    requires IsImage(s, img) && i < |L| == |Y| == |Y'| && QuietAt(s, L, Y, i) && Y'[i] == Y[i]
    ensures ShownAt(img, L, Y', i)
  {
    QuietObs(s, img, L, Y, i);
  }

  // ---------------------------------------------------------------- splitting a leaf

  lemma {:induction false} SplitLinked(x: Ctx, Y: seq<Leaf>, w: Leaf, n: Leaf, r: IdxEntry)
    requires Linked(x.All(), Y) && w.Shape() && n.Shape()
    requires w.NextSibling() == r.ch && n.NextSibling() == Y[|x.A|].NextSibling()
    ensures Linked(After(x, r), SplitView(Y, |x.A|, w, n))
  {
    var L, L', Y', j := x.All(), After(x, r), SplitView(Y, |x.A|, w, n), |x.A|;
    AfterAt(x, r);
    SplitAt(Y, j, w, n);
    hide After, SplitView, Ctx.All;
    forall i | 0 <= i < |L'| ensures Y'[i].Shape() && Y'[i].NextSibling() == PtrAt(L', i + 1) {
      if i > j + 1 { assert Y[i - 1].NextSibling() == PtrAt(L, i); }
      if i < j { assert Y[i].NextSibling() == PtrAt(L, i + 1); }
    }
  }

  /** An image that shows the old leaf split as `w` and the new leaf as `n` shows the longer chain. */
  lemma {:induction false} SplitShown(s: State, img: Image, x: Ctx, Y: seq<Leaf>, w: Leaf, n: Leaf, r: IdxEntry)
    requires DurableBut(s, x.All(), Y, |x.A|) && IsImage(s, img) && Linked(x.All(), Y) && r.ch != NULL && r.ch in img.leaf
    requires Obs(img.leaf[x.e.ch], w) && Obs(img.leaf[r.ch], n)
    requires w.NextSibling() == r.ch && n.NextSibling() == Y[|x.A|].NextSibling()
    ensures ShownList(img, After(x, r), SplitView(Y, |x.A|, w, n))
  {
    var L, L', Y', j := x.All(), After(x, r), SplitView(Y, |x.A|, w, n), |x.A|;
    SplitLinked(x, Y, w, n, r);
    FirstImage(s, img, PtrAt(L, 0));
    AfterAt(x, r);
    SplitAt(Y, j, w, n);
    assert x.e.ch in s.cells && x.e.ch in img.leaf;
    hide After, SplitView, Quiet, CellImage, Obs, IsImage, Linked, QuietAt, Ctx.All;
    forall i | 0 <= i < |L'| ensures ShownAt(img, L', Y', i) {
      if i < j {
        QuietObs(s, img, L, Y, i);
      } else if i > j + 1 {
        QuietObs(s, img, L, Y, i - 1);
      }
    }
  }

  /** Every state of a leaf split recovers to the entries before or after the insert. */
  lemma {:induction false} SplitCrashSafe(s: State, x: Ctx, Y: seq<Leaf>, z: Leaf, w: Leaf, n: Leaf, r: IdxEntry, e: IdxEntry)
    requires DurableBut(s, x.All(), Y, |x.A|) && Linked(x.All(), Y) && r.ch != NULL && r.ch in s.cells
    requires SplitSafe(Pair(s.cells[x.e.ch], s.cells[r.ch]), Y[|x.A|], z, w, n) && SplitMiddle(Y[|x.A|], e, z, n)
    requires LeafOk(w) && Entries(w) + Entries(n) == Entries(Y[|x.A|]) + {e}
    requires z.NextSibling() == r.ch && w.NextSibling() == r.ch && n.NextSibling() == Y[|x.A|].NextSibling()
    ensures CrashSafe(s, Union(Y), Union(Y) + {e})
  {
    SplitUnions(Y, |x.A|, z, w, n, e);
    hide DurableBut, SplitSafe, Linked, IsImage, LeafOk, SplitMiddle, SplitView, Union, Recovers, Entries;
    forall img | IsImage(s, img) ensures Recovers(img, Union(Y)) || Recovers(img, Union(Y) + {e}) {
      SplitImageRecovers(s, img, x, Y, z, w, n, r);
    }
  }

  lemma {:induction false} SplitUnions(Y: seq<Leaf>, j: nat, z: Leaf, w: Leaf, n: Leaf, e: IdxEntry)
    requires j < |Y| && SplitMiddle(Y[j], e, z, n) && LeafOk(w) && Entries(w) + Entries(n) == Entries(Y[j]) + {e}
    ensures Union(SplitView(Y, j, z, n)) == Union(Y) || Union(SplitView(Y, j, z, n)) == Union(Y) + {e}
    ensures Union(SplitView(Y, j, w, n)) == Union(Y) + {e}
  {
    SplitUnion(Y, j, z, n);
    SplitUnion(Y, j, w, n);
    hide LeafOk, Entries, Union, SplitView;
  }

  lemma {:induction false} SplitImageRecovers(s: State, img: Image, x: Ctx, Y: seq<Leaf>, z: Leaf, w: Leaf, n: Leaf, r: IdxEntry)
    requires DurableBut(s, x.All(), Y, |x.A|) && Linked(x.All(), Y) && r.ch != NULL && r.ch in s.cells && IsImage(s, img)
    requires SplitSafe(Pair(s.cells[x.e.ch], s.cells[r.ch]), Y[|x.A|], z, w, n) && z.Shape() && w.Shape() && n.Shape()
    requires z.NextSibling() == r.ch && w.NextSibling() == r.ch && n.NextSibling() == Y[|x.A|].NextSibling()
    ensures Recovers(img, Union(Y)) || Recovers(img, Union(SplitView(Y, |x.A|, z, n))) || Recovers(img, Union(SplitView(Y, |x.A|, w, n)))
  {
    var L, j := x.All(), |x.A|;
    assert L[j].ch == x.e.ch;
    SplitImage(s, img, x, Y, z, w, n, r);
    FirstImage(s, img, PtrAt(L, 0));
    hide Quiet, CellImage, LeafOk, Linked, IsImage, Shows, DurableBut, Recovers, SplitSafe, Obs, Ctx.All;
    if Obs(img.leaf[x.e.ch], Y[j]) {
      OthersShown(s, img, L, Y, j, Y);
      ShownRecovers(img, L, Y);
    } else if Obs(img.leaf[x.e.ch], z) {
      SplitShown(s, img, x, Y, z, n, r);
      ShownRecovers(img, After(x, r), SplitView(Y, j, z, n));
    } else {
      SplitShown(s, img, x, Y, w, n, r);
      ShownRecovers(img, After(x, r), SplitView(Y, j, w, n));
    }
  }

  lemma {:induction false} SplitImage(s: State, img: Image, x: Ctx, Y: seq<Leaf>, z: Leaf, w: Leaf, n: Leaf, r: IdxEntry)
    requires DurableBut(s, x.All(), Y, |x.A|) && IsImage(s, img) && r.ch in s.cells
    requires SplitSafe(Pair(s.cells[x.e.ch], s.cells[r.ch]), Y[|x.A|], z, w, n)
    ensures x.e.ch in img.leaf && r.ch in img.leaf
    ensures Obs(img.leaf[x.e.ch], Y[|x.A|]) || ((Obs(img.leaf[x.e.ch], z) || Obs(img.leaf[x.e.ch], w)) && Obs(img.leaf[r.ch], n))
  {
    assert x.All()[|x.A|].ch == x.e.ch;
    assert CellImage(s.cells[x.e.ch], img.leaf[x.e.ch]);
    assert CellImage(s.cells[r.ch], img.leaf[r.ch]);
    hide CellImage, Obs;
  }

  // ---------------------------------------------------------------- unlinking a leaf

  /** An image that shows the left neighbour redirected (or a new chain head) shows the chain without leaf `j`. */
  lemma {:induction false} PrunedShown(s: State, img: Image, x: Ctx, Y: seq<Leaf>, left: bool)
    requires |Y| == |x.All()| && Linked(Removed(x, left), PruneView(Y, |x.A|)) && img.first == PtrAt(Removed(x, left), 0)
    requires forall i :: 0 <= i < |Y| && i != |x.A| ==> ShownAt(img, x.All(), Y, i)
    ensures ShownList(img, Removed(x, left), PruneView(Y, |x.A|))
  {
    var L, L', Y' := x.All(), Removed(x, left), PruneView(Y, |x.A|);
    RemovedAt(x, left);
    PruneAt(Y, |x.A|);
    hide Removed, PruneView, Obs, Linked, Ctx.All;
    forall i | 0 <= i < |L'| ensures ShownAt(img, L', Y', i) {
      assert ShownAt(img, L, Y, if i < |x.A| then i else i + 1);
    }
  }

  /** The left neighbour's pointer is being redirected past a leaf that holds only `e`. */
  lemma {:induction false} UnlinkCrashSafe(s: State, x: Ctx, Y: seq<Leaf>, left: bool, p: Leaf, e: IdxEntry)
    requires x.A != [] && DurableBut(s, x.All(), Y, |x.A| - 1) && Linked(x.All(), Y)
    requires Shows(s.cells[x.A[|x.A| - 1].ch], Y[|x.A| - 1], p)
    requires var Y' := Y[|x.A| - 1 := p];
      Linked(Removed(x, left), PruneView(Y', |x.A|)) && Union(PruneView(Y', |x.A|)) == Union(Y) - {e}
    ensures CrashSafe(s, Union(Y), Union(Y) - {e})
  {
    var L, j := x.All(), |x.A|;
    assert L[j - 1] == x.A[j - 1];
    RemovedAt(x, left);
    forall img | IsImage(s, img) ensures Recovers(img, Union(Y)) || Recovers(img, Union(Y) - {e}) {
      FirstImage(s, img, PtrAt(L, 0));
      var q := img.leaf[L[j - 1].ch];
      assert CellImage(s.cells[L[j - 1].ch], q);
      assert Obs(q, Y[j - 1]) || Obs(q, p);
      hide Quiet, CellImage, LeafOk, Linked, Removed, PruneView, Obs, QuietAt, Shows;
      if Obs(q, Y[j - 1]) {
        OthersShown(s, img, L, Y, j - 1, Y);
        ShownRecovers(img, L, Y);
      } else {
        var Y' := Y[j - 1 := p];
        forall i | 0 <= i < |Y| && i != j ensures ShownAt(img, L, Y', i) {
          if i != j - 1 { ShownOther(s, img, L, Y, i, Y'); }
        }
        PrunedShown(s, img, x, Y', left);
        ShownRecovers(img, Removed(x, left), PruneView(Y', j));
      }
    }
  }

  /** `first_leaf` is being moved past the first leaf, which holds only `e`. */
  lemma {:induction false} FirstCrashSafe(s: State, x: Ctx, Y: seq<Leaf>, left: bool, e: IdxEntry)
    requires x.A == [] && |Y| == |x.All()| && Linked(x.All(), Y) && s.firstLow <= |s.first|
    requires forall i :: 0 <= i < |Y| ==> QuietAt(s, x.All(), Y, i)
    requires forall t :: s.firstLow <= t < |s.first| ==> s.first[t] == x.e.ch || s.first[t] == PtrAt(x.All(), 1)
    requires Linked(Removed(x, left), PruneView(Y, 0)) && Union(PruneView(Y, 0)) == Union(Y) - {e}
    ensures CrashSafe(s, Union(Y), Union(Y) - {e})
  {
    var L := x.All();
    assert L[0] == x.e;
    RemovedAt(x, left);
    assert PtrAt(Removed(x, left), 0) == PtrAt(L, 1);
    forall img | IsImage(s, img) ensures Recovers(img, Union(Y)) || Recovers(img, Union(Y) - {e}) {
      FirstEither(s, img, x.e.ch, PtrAt(L, 1));
      hide Quiet, CellImage, LeafOk, Linked, Removed, PruneView, QuietAt;
      forall i | 0 <= i < |Y| ensures ShownAt(img, L, Y, i) { QuietObs(s, img, L, Y, i); }
      if img.first == x.e.ch {
        ShownRecovers(img, L, Y);
      } else {
        PrunedShown(s, img, x, Y, left);
        ShownRecovers(img, Removed(x, left), PruneView(Y, 0));
      }
    }
  }

  lemma {:induction false} FirstEither(s: State, img: Image, p: Ptr, q: Ptr)
    requires IsImage(s, img) && forall t :: s.firstLow <= t < |s.first| ==> s.first[t] == p || s.first[t] == q
    ensures img.first == p || img.first == q
  {
    var W := s.first[s.firstLow..];
    var t :| 0 <= t < |W| && W[t] == img.first;
    assert s.first[s.firstLow + t] == img.first;
  }
}
