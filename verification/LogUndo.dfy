/** What log records do to memory, and what undoing them brings back. */
module LogUndo {
  import opened Types
  import opened Bytes
  import opened LogCodec

  // ---------------------------------------------------------------- records acting on memory

  predicate InMem(m: seq<byte>, addr: int, n: int) { 0 <= addr && 0 <= n && addr + n <= |m| }

  function Store(m: seq<byte>, addr: int, bs: seq<byte>): (r: seq<byte>)
    ensures |r| == |m|
  {
    if InMem(m, addr, |bs|) then Patch(m, addr, bs) else m
  }

  /** An overwrite with an undo value. */
  predicate Overwrite(r: Rec) { r.Write? || r.WriteVchar? }

  /** A write to a location not in use before. */
  predicate Fresh(r: Rec) { r.New? || r.NewVchar? }

  predicate Covers(r: Rec, a: int) {
    (Overwrite(r) || Fresh(r)) && r.addr <= a < r.addr + |r.val|
  }

  /** The store that goes with the record. */
  function Do(m: seq<byte>, r: Rec): (m': seq<byte>)
    ensures |m'| == |m|
  {
    if Overwrite(r) || Fresh(r) || r.Redo? || r.RedoVchar? then Store(m, r.addr, r.val) else m
  }

  /** Which records overwrite, which write where nothing was in use, and what they cover. */
  lemma {:induction false} RecordKinds(r: Rec, a: int)
    ensures (Overwrite(r) <==> r.Write? || r.WriteVchar?) && (Fresh(r) <==> r.New? || r.NewVchar?)
    ensures r.Write? || r.WriteVchar? || r.New? || r.NewVchar? ==> (Covers(r, a) <==> r.addr <= a < r.addr + |r.val|)
  {
  }

  function Undo(m: seq<byte>, r: Rec): (m': seq<byte>)
    ensures |m'| == |m|
  {
    if Overwrite(r) then Store(m, r.addr, r.was) else m
  }

  function DoAll(m: seq<byte>, rs: seq<Rec>): (m': seq<byte>)
    ensures |m'| == |m|
  {
    if rs == [] then m else Do(DoAll(m, rs[..|rs| - 1]), rs[|rs| - 1])
  }

  /** The last record is undone first. */
  function UndoAll(m: seq<byte>, rs: seq<Rec>): (m': seq<byte>)
    ensures |m'| == |m|
  {
    if rs == [] then m else Undo(UndoAll(m, rs[1..]), rs[0])
  }

  /** An overwrite record holds the value the location had at that point. */
  predicate RecLogged(m: seq<byte>, r: Rec) {
    && ((Overwrite(r) || Fresh(r) || r.Redo? || r.RedoVchar?) ==> InMem(m, r.addr, |r.val|))
    && (Overwrite(r) ==> |r.was| == |r.val| && m[r.addr..r.addr + |r.was|] == r.was)
  }

  ghost predicate Logged(m: seq<byte>, rs: seq<Rec>) {
    forall i :: 0 <= i < |rs| ==> RecLogged(DoAll(m, rs[..i]), rs[i])
  }

  // ---------------------------------------------------------------- one address

  lemma {:induction false} StoreAt(m: seq<byte>, addr: int, bs: seq<byte>, a: nat)
    requires InMem(m, addr, |bs|) && a < |m|
    ensures Store(m, addr, bs)[a] == if addr <= a < addr + |bs| then bs[a - addr] else m[a]
  {
  }

  lemma {:induction false} DoAt(m: seq<byte>, r: Rec, a: nat)
    requires RecLogged(m, r) && (r.Redo? || r.RedoVchar? ==> !(r.addr <= a < r.addr + |r.val|)) && a < |m|
    ensures !Covers(r, a) ==> Do(m, r)[a] == m[a]
  {
  }

  /** Undoing an overwrite brings back the logged value, whatever the location holds now. */
  lemma {:induction false} UndoAt(m0: seq<byte>, m: seq<byte>, r: Rec, a: nat)
    requires RecLogged(m0, r) && |m| == |m0| && a < |m|
    ensures Undo(m, r)[a] == if Overwrite(r) && Covers(r, a) then m0[a] else m[a]
  {
    if Overwrite(r) {
      StoreAt(m, r.addr, r.was, a);
      if Covers(r, a) { assert m0[r.addr..r.addr + |r.was|][a - r.addr] == m0[a]; }
    }
  }

  predicate Untouched(rs: seq<Rec>, n: nat, a: int) {
    forall i :: 0 <= i < n && i < |rs| ==> !(Overwrite(rs[i]) && Covers(rs[i], a))
  }

  /** An address no overwrite covers is not changed by undoing. */
  lemma {:induction false} UndoNothing(m0: seq<byte>, m: seq<byte>, rs: seq<Rec>, all: seq<Rec>, at: nat, a: nat)
    requires Logged(m0, all) && at <= |all| && rs == all[at..] && |m| == |m0| && a < |m|
    requires forall i :: at <= i < |all| ==> !(Overwrite(all[i]) && Covers(all[i], a))
    ensures UndoAll(m, rs)[a] == m[a]
    decreases |rs|
  {
    if rs != [] {
      assert rs[1..] == all[at + 1..] && rs[0] == all[at];
      UndoNothing(m0, m, rs[1..], all, at + 1, a);
      assert RecLogged(DoAll(m0, all[..at]), all[at]);
      UndoAt(DoAll(m0, all[..at]), UndoAll(m, rs[1..]), rs[0], a);
    }
  }

  /**
   * Undoing brings an overwritten byte back to its value before the first overwrite that covers it, however
   * the overwrites overlap or repeat, and from whatever memory contents the undo starts.
   */
  lemma {:induction false} UndoFirst(m0: seq<byte>, m: seq<byte>, all: seq<Rec>, k: nat, at: nat, a: nat)
    requires Logged(m0, all) && at <= k < |all| && |m| == |m0| && a < |m|
    requires Overwrite(all[k]) && Covers(all[k], a) && Untouched(all, k, a)
    ensures UndoAll(m, all[at..])[a] == DoAll(m0, all[..k])[a]
    decreases k - at
  {
    var rs := all[at..];
    assert rs[1..] == all[at + 1..] && rs[0] == all[at];
    assert RecLogged(DoAll(m0, all[..at]), all[at]);
    UndoAt(DoAll(m0, all[..at]), UndoAll(m, rs[1..]), rs[0], a);
    if at < k { UndoFirst(m0, m, all, k, at + 1, a); }
  }

  /** A byte that no record before the `k`-th covers still has its first value there. */
  lemma {:induction false} StillFirst(m0: seq<byte>, all: seq<Rec>, k: nat, a: nat)
    requires Logged(m0, all) && k <= |all| && a < |m0|
    requires forall i :: 0 <= i < k ==> !Covers(all[i], a) && !all[i].Redo? && !all[i].RedoVchar?
    ensures DoAll(m0, all[..k])[a] == m0[a]
  {
    if k > 0 {
      var rs := all[..k];
      assert rs[..|rs| - 1] == all[..k - 1] && rs[|rs| - 1] == all[k - 1];
      StillFirst(m0, all, k - 1, a);
      assert RecLogged(DoAll(m0, all[..k - 1]), all[k - 1]);
      DoAt(DoAll(m0, all[..k - 1]), all[k - 1], a);
    }
  }

  function FirstCover(rs: seq<Rec>, a: int, n: nat): (k: nat)
    requires exists i :: 0 <= i < |rs| && Overwrite(rs[i]) && Covers(rs[i], a)
    requires n <= |rs| && Untouched(rs, n, a)
    ensures k < |rs| && Overwrite(rs[k]) && Covers(rs[k], a) && Untouched(rs, k, a)
    decreases |rs| - n
  {
    if n < |rs| && !(Overwrite(rs[n]) && Covers(rs[n], a)) then FirstCover(rs, a, n + 1) else n
  }

  // ---------------------------------------------------------------- abort and crash

  /** The records of a running transaction. */
  predicate Running(rs: seq<Rec>) {
    forall i :: 0 <= i < |rs| ==> Undoable(rs[i])
  }

  /** No fresh write covers the address. */
  predicate NotFresh(rs: seq<Rec>, a: int) {
    forall i :: 0 <= i < |rs| ==> !(Fresh(rs[i]) && Covers(rs[i], a))
  }

  /**
   * What a crash can leave while the first `done` stores of the transaction have been made: each byte
   * has one of the values it has held.
   */
  ghost predicate Mixture(m0: seq<byte>, rs: seq<Rec>, done: nat, img: seq<byte>)
    requires done <= |rs|
  {
    |img| == |m0| && forall a :: 0 <= a < |m0| ==> Held(m0, rs, done, a, img[a])
  }

  ghost predicate Held(m0: seq<byte>, rs: seq<Rec>, done: nat, a: nat, v: byte)
    requires done <= |rs| && a < |m0|
  {
    exists i :: 0 <= i <= done && DoAll(m0, rs[..i])[a] == v
  }

  /** Every overwrite made so far is among the first `n` records. */
  predicate AheadOf(rs: seq<Rec>, done: nat, n: nat) {
    forall i :: 0 <= i < done && i < |rs| && Overwrite(rs[i]) ==> i < n
  }

  /**
   * The write-ahead rule pays off: undoing the first `n` records, which include every overwrite made so far,
   * restores each byte from any mixture of old and new values.
   */
  lemma {:induction false} UndoMixture(m0: seq<byte>, rs: seq<Rec>, done: nat, n: nat, img: seq<byte>, a: nat)
    requires Running(rs) && Logged(m0, rs) && done <= |rs| && n <= |rs| && AheadOf(rs, done, n)
    requires Mixture(m0, rs, done, img) && a < |m0| && NotFresh(rs, a)
    ensures UndoAll(img, rs[..n])[a] == m0[a]
  {
    hide DoAll, UndoAll, Logged, NotFresh, Covers, Undoable;
    var all := rs[..n];
    LoggedPrefix(m0, rs, n);
    NotFreshPrefix(rs, n, a);
    assert all[0..] == all;
    if exists i :: 0 <= i < |all| && Overwrite(all[i]) && Covers(all[i], a) {
      var k := FirstCover(all, a, 0);
      UndoFirst(m0, img, all, k, 0, a);
      FirstKept(m0, all, k, a);
    } else {
      UndoNothing(m0, img, all, all, 0, a);
      assert Held(m0, rs, done, a, img[a]);
      var i :| 0 <= i <= done && DoAll(m0, rs[..i])[a] == img[a];
      forall j | 0 <= j < i && Overwrite(rs[j]) ensures !Covers(rs[j], a) { assert all[j] == rs[j]; }
      FirstKept(m0, rs, i, a);
    }
  }

  lemma {:induction false} LoggedPrefix(m0: seq<byte>, rs: seq<Rec>, n: nat)
    requires Logged(m0, rs) && n <= |rs|
    ensures Logged(m0, rs[..n])
  {
    var all := rs[..n];
    forall i | 0 <= i < |all| ensures RecLogged(DoAll(m0, all[..i]), all[i]) {
      assert all[..i] == rs[..i];
      assert RecLogged(DoAll(m0, rs[..i]), rs[i]);
    }
  }

  lemma {:induction false} NotFreshPrefix(rs: seq<Rec>, n: nat, a: nat)
    requires NotFresh(rs, a) && Running(rs) && n <= |rs|
    ensures NotFresh(rs[..n], a) && Running(rs[..n])
  {
  }

  /** A byte that no overwrite among the first `k` records covers, nor any fresh write, is still what it was. */
  lemma {:induction false} FirstKept(m0: seq<byte>, rs: seq<Rec>, k: nat, a: nat)
    requires Logged(m0, rs) && Running(rs) && NotFresh(rs, a) && k <= |rs| && a < |m0|
    requires forall j :: 0 <= j < k && Overwrite(rs[j]) ==> !Covers(rs[j], a)
    ensures DoAll(m0, rs[..k])[a] == m0[a]
  {
    hide DoAll, Logged, RecOk;
    forall j | 0 <= j < k ensures !Covers(rs[j], a) && !rs[j].Redo? && !rs[j].RedoVchar? { assert Undoable(rs[j]); }
    StillFirst(m0, rs, k, a);
  }

  /** In particular, undoing the whole transaction from its final state restores every byte it did not write fresh. */
  lemma {:induction false} UndoRestores(m0: seq<byte>, rs: seq<Rec>, a: nat)
    requires Running(rs) && Logged(m0, rs) && a < |m0| && NotFresh(rs, a)
    ensures UndoAll(DoAll(m0, rs), rs)[a] == m0[a]
  {
    var img := DoAll(m0, rs);
    assert rs[..|rs|] == rs;
    forall b | 0 <= b < |m0| ensures Held(m0, rs, |rs|, b, img[b]) {
      assert DoAll(m0, rs[..|rs|])[b] == img[b];
    }
    UndoMixture(m0, rs, |rs|, |rs|, img, a);
  }

  // ---------------------------------------------------------------- redo

  /** The record stores something at the address. */
  predicate Sets(r: Rec, a: int) {
    (Overwrite(r) || Fresh(r) || r.Redo? || r.RedoVchar?) && r.addr <= a < r.addr + |r.val|
  }

  /** A store that goes with the record is within memory. */
  predicate StoreIn(size: nat, r: Rec) {
    Overwrite(r) || Fresh(r) || r.Redo? || r.RedoVchar? ==> r.addr + |r.val| <= size
  }

  predicate SetBySome(rs: seq<Rec>, a: int) { exists i :: 0 <= i < |rs| && Sets(rs[i], a) }

  /** What a byte holds after the stores is decided by the stores that cover it, or else it is what it was. */
  lemma {:induction false} StoresDecide(m: seq<byte>, img: seq<byte>, rs: seq<Rec>, a: nat)
    requires |img| == |m| && a < |m| && (SetBySome(rs, a) || img[a] == m[a])
    requires forall i :: 0 <= i < |rs| && Sets(rs[i], a) ==> InMem(m, rs[i].addr, |rs[i].val|)
    ensures DoAll(img, rs)[a] == DoAll(m, rs)[a]
  {
    if rs != [] {
      var before, r := rs[..|rs| - 1], rs[|rs| - 1];
      if Sets(r, a) {
        StoreAt(DoAll(m, before), r.addr, r.val, a);
        StoreAt(DoAll(img, before), r.addr, r.val, a);
      } else {
        if SetBySome(rs, a) {
          var i :| 0 <= i < |rs| && Sets(rs[i], a);
          assert before[i] == rs[i];
        }
        StoresDecide(m, img, before, a);
        NotSet(DoAll(m, before), r, a);
        NotSet(DoAll(img, before), r, a);
      }
    }
  }

  /** Record `k` is the last one that stores something at the address. */
  predicate LastSets(rs: seq<Rec>, k: int, a: int) {
    0 <= k < |rs| && Sets(rs[k], a) && forall i :: k < i < |rs| ==> !Sets(rs[i], a)
  }

  /** After the stores a byte holds its place in the value of the last record that covers it, whatever it held before. */
  lemma {:induction false} LastStored(m: seq<byte>, rs: seq<Rec>, k: nat, a: nat)
    requires a < |m| && LastSets(rs, k, a) && rs[k].addr + |rs[k].val| <= |m|
    ensures DoAll(m, rs)[a] == rs[k].val[a - rs[k].addr]
    decreases |rs|
  {
    var before, r := rs[..|rs| - 1], rs[|rs| - 1];
    if k == |rs| - 1 {
      StoreAt(DoAll(m, before), r.addr, r.val, a);
    } else {
      assert before[k] == rs[k] && forall i :: k < i < |before| ==> before[i] == rs[i];
      LastStored(m, before, k, a);
      NotSet(DoAll(m, before), r, a);
    }
  }

  lemma {:induction false} NotSet(m: seq<byte>, r: Rec, a: nat)
    requires !Sets(r, a) && a < |m|
    ensures Do(m, r)[a] == m[a]
  {
  }

  lemma {:induction false} NeverSet(m: seq<byte>, rs: seq<Rec>, a: nat)
    requires !SetBySome(rs, a) && a < |m|
    ensures DoAll(m, rs)[a] == m[a]
  {
    if rs != [] {
      var before, r := rs[..|rs| - 1], rs[|rs| - 1];
      assert forall i :: 0 <= i < |before| ==> before[i] == rs[i];
      assert !Sets(rs[|rs| - 1], a);
      NeverSet(m, before, a);
      NotSet(DoAll(m, before), r, a);
    }
  }

  /**
   * Redo is repeatable: whatever mixture of old and new bytes a crash during the stores of a transaction leaves, making all of
   * them again, in order, gives the memory they lead to.
   */
  lemma {:induction false} RedoMixture(m: seq<byte>, rs: seq<Rec>, done: nat, img: seq<byte>)
    requires done <= |rs| && Mixture(m, rs, done, img)
    requires forall i :: 0 <= i < |rs| ==> StoreIn(|m|, rs[i])
    ensures DoAll(img, rs) == DoAll(m, rs)
  {
    forall a | 0 <= a < |m| ensures DoAll(img, rs)[a] == DoAll(m, rs)[a] {
      assert Held(m, rs, done, a, img[a]);
      var i :| 0 <= i <= done && DoAll(m, rs[..i])[a] == img[a];
      if !SetBySome(rs, a) {
        assert forall j :: 0 <= j < i ==> rs[..i][j] == rs[j];
        NeverSet(m, rs[..i], a);
      }
      StoresDecide(m, img, rs, a);
    }
  }

  lemma {:induction false} DoAllConcat(m: seq<byte>, rs: seq<Rec>, more: seq<Rec>)
    ensures DoAll(m, rs + more) == DoAll(DoAll(m, rs), more)
  {
    if more == [] {
      assert rs + more == rs;
    } else {
      var before, r := more[..|more| - 1], more[|more| - 1];
      assert (rs + more)[..|rs + more| - 1] == rs + before;
      DoAllConcat(m, rs, before);
    }
  }
}
