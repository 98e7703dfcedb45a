/** How the NVM as a whole changes: one memory event at a time. */
module MemoryRun {
  import opened Types
  import opened LeafNode
  import opened Nvm
  import opened LeafSplit

  function Put(s: State, p: Ptr, k: Cell): State { s.(cells := s.cells[p := k]) }

  function PutPair(s: State, p: Ptr, q: Ptr, c: Pair): State { Put(Put(s, p, c.l), q, c.n) }

  /** The states the memory goes through while leaf `p` goes through `tr`. */
  function Lift(s: State, p: Ptr, tr: seq<Cell>): seq<State> {
    seq(|tr|, i requires 0 <= i < |tr| => Put(s, p, tr[i]))
  }

  function LiftPair(s: State, p: Ptr, q: Ptr, tr: seq<Pair>): seq<State> {
    seq(|tr|, i requires 0 <= i < |tr| => PutPair(s, p, q, tr[i]))
  }

  function StoreFirst(s: State, q: Ptr): State { s.(first := s.first + [q]) }

  function FlushFirst(s: State): State
    requires |s.first| > 0
  {
    s.(firstWb := |s.first| - 1)
  }

  function FenceFirst(s: State): State { s.(firstLow := s.firstWb) }

  // ---------------------------------------------------------------- events

  predicate LeafFenced(k: Cell, k': Cell) { k' == k || k' == Fence(k) }

  /** A fence completes write-backs; those it is not shown to complete are only less durable than they are. */
  ghost predicate Fenced(s: State, s': State) {
    && s'.cells.Keys == s.cells.Keys && (forall p :: p in s.cells ==> LeafFenced(s.cells[p], s'.cells[p]))
    && (s'.(cells := s.cells) == s || s'.(cells := s.cells) == FenceFirst(s))
  }

  ghost predicate LeafEvent(s: State, s': State, p: Ptr) {
    p in s.cells && p in s'.cells && s' == Put(s, p, s'.cells[p]) && Event(s.cells[p], s'.cells[p])
  }

  /** The pool hands out a leaf; its memory holds anything. */
  predicate HandedOut(s: State, s': State, p: Ptr) {
    p !in s.cells && p in s'.cells && s' == Put(s, p, s'.cells[p]) && s'.cells[p].Shape() && |s'.cells[p].h| == 1
  }

  /** A store to `first_leaf`, or its write-back. */
  predicate FirstEvent(s: State, s': State) {
    |s.first| > 0 && (s' == FlushFirst(s) || (|s'.first| > 0 && s' == StoreFirst(s, s'.first[|s'.first| - 1])))
  }

  ghost predicate StateEvent(s: State, s': State) {
    (exists p :: LeafEvent(s, s', p)) || FirstEvent(s, s') || Fenced(s, s') || exists p :: HandedOut(s, s', p)
  }

  /** The memory goes from `s` through the states `tr` to `s'`, one event at a time. */
  ghost predicate Run(s: State, tr: seq<State>, s': State)
    decreases |tr|
  {
    if tr == [] then s == s' else StateEvent(s, tr[0]) && Run(tr[0], tr[1..], s')
  }

  lemma {:induction false} RunJoin(s: State, tr: seq<State>, s1: State, tr1: seq<State>, s2: State)
    requires Run(s, tr, s1) && Run(s1, tr1, s2)
    ensures Run(s, tr + tr1, s2)
    decreases |tr|
  {
    hide StateEvent;
    if tr == [] {
      assert tr + tr1 == tr1;
    } else {
      RunJoin(tr[0], tr[1..], s1, tr1, s2);
      assert (tr + tr1)[1..] == tr[1..] + tr1;
    }
  }

  lemma {:induction false} RunOne(s: State, s': State)
    requires StateEvent(s, s')
    ensures Run(s, [s'], s')
  {
    hide StateEvent;
    assert [s'][1..] == [];
  }

  lemma {:induction false} RunMore(s: State, tr: seq<State>, s1: State, s2: State)
    requires Run(s, tr, s1) && StateEvent(s1, s2)
    ensures Run(s, tr + [s2], s2)
  {
    hide StateEvent, Run;
    RunOne(s1, s2);
    RunJoin(s, tr, s1, [s2], s2);
  }

  /** A leaf's events are events of the memory. */
  lemma {:induction false} LiftRun(s: State, p: Ptr, tr: seq<Cell>, k': Cell)
    requires p in s.cells && Steps(s.cells[p], tr, k')
    ensures Run(s, Lift(s, p, tr), Put(s, p, k'))
    decreases |tr|
  {
    hide Event, StateEvent;
    if tr == [] {
      assert Put(s, p, k') == s;
    } else {
      var s1 := Put(s, p, tr[0]);
      LiftRun(s1, p, tr[1..], k');
      assert Put(s1, p, k') == Put(s, p, k');
      LiftTail(s, p, tr);
      OneLeafEvent(s, p, tr[0]);
    }
  }

  lemma {:induction false} OneLeafEvent(s: State, p: Ptr, k: Cell)
    requires p in s.cells && Event(s.cells[p], k)
    ensures StateEvent(s, Put(s, p, k))
  {
    hide Event;
    assert LeafEvent(s, Put(s, p, k), p);
  }

  lemma {:induction false} LiftTail(s: State, p: Ptr, tr: seq<Cell>)
    requires tr != []
    ensures Lift(s, p, tr)[0] == Put(s, p, tr[0]) && Lift(s, p, tr)[1..] == Lift(Put(s, p, tr[0]), p, tr[1..])
  {
    var s1 := Put(s, p, tr[0]);
    forall i | 0 <= i < |tr| - 1 ensures Lift(s, p, tr)[1..][i] == Lift(s1, p, tr[1..])[i] { assert Put(s1, p, tr[i + 1]) == Put(s, p, tr[i + 1]); }
  }

  /** So are the events of a pair of leaves. */
  lemma {:induction false} LiftPairRun(s: State, p: Ptr, q: Ptr, c: Pair, tr: seq<Pair>, d: Pair)
    requires p in s.cells && q in s.cells && p != q && s.cells[p] == c.l && s.cells[q] == c.n && PairSteps(c, tr, d)
    ensures Run(s, LiftPair(s, p, q, tr), PutPair(s, p, q, d))
    decreases |tr|
  {
    hide PairEvent, StateEvent;
    if tr == [] {
      assert PutPair(s, p, q, d) == s;
    } else {
      var s1 := PutPair(s, p, q, tr[0]);
      LiftPairRun(s1, p, q, tr[0], tr[1..], d);
      PutTwice(s, p, q, tr[0], d);
      LiftPairTail(s, p, q, tr);
      OnePairEvent(s, p, q, c, tr[0]);
    }
  }

  lemma {:induction false} PutTwice(s: State, p: Ptr, q: Ptr, c: Pair, d: Pair)
    ensures PutPair(PutPair(s, p, q, c), p, q, d) == PutPair(s, p, q, d)
  {
    assert PutPair(PutPair(s, p, q, c), p, q, d).cells == PutPair(s, p, q, d).cells;
  }

  lemma {:induction false} OnePairEvent(s: State, p: Ptr, q: Ptr, c: Pair, d: Pair)
    requires p in s.cells && q in s.cells && p != q && s.cells[p] == c.l && s.cells[q] == c.n && PairEvent(c, d)
    ensures StateEvent(s, PutPair(s, p, q, d))
  {
    hide Event;
    var s' := PutPair(s, p, q, d);
    if Event(c.l, d.l) && d.n == c.n {
      assert s' == Put(s, p, d.l);
      OneLeafEvent(s, p, d.l);
    } else if d.l == c.l && Event(c.n, d.n) {
      assert s' == Put(s, q, d.n);
      OneLeafEvent(s, q, d.n);
    } else {
      assert s'.cells.Keys == s.cells.Keys;
      assert forall r :: r in s.cells ==> LeafFenced(s.cells[r], s'.cells[r]);
      assert s'.(cells := s.cells) == s;
      assert Fenced(s, s');
    }
  }

  lemma {:induction false} LiftPairTail(s: State, p: Ptr, q: Ptr, tr: seq<Pair>)
    requires tr != []
    ensures LiftPair(s, p, q, tr)[0] == PutPair(s, p, q, tr[0]) && LiftPair(s, p, q, tr)[1..] == LiftPair(PutPair(s, p, q, tr[0]), p, q, tr[1..])
  {
    var s1 := PutPair(s, p, q, tr[0]);
    hide PutPair;
    forall i | 0 <= i < |tr| - 1 ensures LiftPair(s, p, q, tr)[1..][i] == LiftPair(s1, p, q, tr[1..])[i] { PutTwice(s, p, q, tr[0], tr[i + 1]); }
  }

  /** The pool hands out leaf `q` first. */
  lemma {:induction false} HandOutRun(s: State, p: Ptr, q: Ptr, c: Pair, tr: seq<Pair>, d: Pair)
    requires p in s.cells && q !in s.cells && s.cells[p] == c.l && c.n.Shape() && |c.n.h| == 1 && PairSteps(c, tr, d)
    ensures Run(s, LiftPair(s, p, q, [c] + tr), PutPair(s, p, q, d))
  {
    var s1, T := PutPair(s, p, q, c), LiftPair(s, p, q, [c] + tr);
    assert s1 == Put(s, q, c.n);
    assert HandedOut(s, s1, q);
    LiftPairTail(s, p, q, [c] + tr);
    assert ([c] + tr)[1..] == tr;
    PutTwice(s, p, q, c, d);
    hide StateEvent, PairSteps;
    LiftPairRun(s1, p, q, c, tr, d);
  }

  /** `setFirstLeaf`: store, write-back, fence. */
  lemma {:induction false} FirstRun(s: State, q: Ptr)
    ensures var s1 := StoreFirst(s, q); var s2 := FlushFirst(s1); |s.first| > 0 ==> Run(s, [] + [s1] + [s2] + [FenceFirst(s2)], FenceFirst(s2))
  {
    var s1 := StoreFirst(s, q);
    var s2 := FlushFirst(s1);
    var s3 := FenceFirst(s2);
    if |s.first| > 0 {
      assert FirstEvent(s, s1) && FirstEvent(s1, s2);
      assert Fenced(s2, s3);
      assert Run(s, [], s);
      hide StateEvent, Run;
      RunMore(s, [], s, s1);
      RunMore(s, [] + [s1], s1, s2);
      RunMore(s, [] + [s1] + [s2], s2, s3);
    }
  }
}
