/** The forward scan of `print`: the records of a transaction, found by their head tags. */
module LogPrint {
  import opened Types
  import opened Bytes
  import opened LogArea
  import opened LogCodec
  import MiniTransaction

  /** One line of output: tag, address, length of a variable-length record, old and new value, deleted nodes. */
  datatype Line = Line(tag: byte, addr: Addr, len: nat, was: seq<byte>, val: seq<byte>, nodes: seq<Addr>)

  /** What `print` shows of a record: not the contents of one of variable length. */
  function Shown(r: Rec): Line {
    match r
    case New(addr, val) => Line(Tag(r), addr, 0, [], val, [])
    case Redo(addr, val) => Line(Tag(r), addr, 0, [], val, [])
    case Write(addr, was, val) => Line(Tag(r), addr, 0, was, val, [])
    case NewVchar(addr, val) => Line(Tag(r), addr, |val|, [], [], [])
    case WriteVchar(addr, _, val) => Line(Tag(r), addr, |val|, [], [], [])
    case RedoVchar(addr, val) => Line(Tag(r), addr, |val|, [], [], [])
    case AllocNode(node) => Line(Tag(r), node, 0, [], [], [])
    case DelNode(nodes) => Line(Tag(r), 0, 0, [], [], nodes)
    case Commit => Line(Tag(r), 0, 0, [], [], [])
    case Abort => Line(Tag(r), 0, 0, [], [], [])
  }

  /** What is shown determines the record, except for the contents of variable length, of which only the length is shown. */
  lemma {:induction false} ShownTells(r: Rec, q: Rec)
    requires RecOk(r) && RecOk(q) && Shown(r) == Shown(q)
    ensures (r.NewVchar? <==> q.NewVchar?) && (r.WriteVchar? <==> q.WriteVchar?) && (r.RedoVchar? <==> q.RedoVchar?)
    ensures r.NewVchar? || r.WriteVchar? || r.RedoVchar? ==> r.addr == q.addr && |r.val| == |q.val|
    ensures !(r.NewVchar? || r.WriteVchar? || r.RedoVchar?) ==> r == q
    ensures r.Write? ==> Shown(r).was == r.was && Shown(r).val == r.val && Shown(r).addr == r.addr
  {
    TagIs(r);
    TagIs(q);
    hide Tag;
  }

  function AllShown(rs: seq<Rec>): seq<Line> {
    if rs == [] then [] else AllShown(rs[..|rs| - 1]) + [Shown(rs[|rs| - 1])]
  }

  /** The record's bytes start at stream position `t`. */
  predicate RecFrom(stream: seq<byte>, t: nat, r: Rec) {
    RecOk(r) && t + Length(r) <= |stream| && stream[t..t + Length(r)] == Encode(r)
  }

  predicate Fixed(r: Rec) { r.New? || r.Redo? || r.Write? || r.AllocNode? }

  predicate VarSized(r: Rec) { r.NewVchar? || r.WriteVchar? || r.RedoVchar? }

  /** The size of the values of a fixed-size record, by its tag: one value, or an old and a new one. */
  function OneSize(tag: byte): int {
    if SizeOf(tag, NL_NEW1B) > 0 then SizeOf(tag, NL_NEW1B) else SizeOf(tag, NL_REDO1B)
  }

  class Printer {
    const log: LogBuffer

    constructor (log: LogBuffer)
      ensures this.log == log
    {
      this.log := log;
    }

    /** The byte at a forward position, `pos.next_ptr_[0]`. */
    method FirstByte(pos: LogPos, ghost t: nat) returns (tag: byte)
      requires log.Valid() && AtFwd(pos, log.lines, t) && Readable(log.lines, |log.stream|, log.flushed, t, 1)
      ensures tag == log.stream[t]
    {
      hide AtFwd, Slot, Flip, LineNo, Col, Holding, Checked;
      NextFwd(log.area[..], log.lines, log.stream, log.flushed, t, 1, pos);
      SliceArea(log.area, pos.next, 1);
      tag := log.area[pos.next];
      assert log.area[..][pos.next..pos.next + 1][0] == log.stream[t..t + 1][0];
    }

    /** Records of fixed size. */
    method ShowFixed(pos0: LogPos, tag: byte, ghost t: nat, ghost r: Rec) returns (pos: LogPos, line: Line)
      requires log.Valid() && AtFwd(pos0, log.lines, t) && RecFrom(log.stream, t, r) && Fixed(r) && tag == Tag(r)
      requires Readable(log.lines, |log.stream|, log.flushed, t, Length(r))
      ensures AtFwd(pos, log.lines, t + Length(r)) && line == Shown(r)
    {
      hide LogBuffer.Valid, AtFwd, Encode, RecOk, AddrOf, UnLE, Tag, Readable;
      HeadKinds(r);
      FixedParts(r);
      var p;
      if OneSize(tag) > 0 {
        var n := OneSize(tag);
        pos, p := log.ReadLog(pos0, 1 + 8 + n + 1, t);
        line := Line(tag, AddrOf(p[1..9]), 0, [], p[9..9 + n], []);
      } else if tag == NL_ALLOCNODE {
        pos, p := log.ReadLog(pos0, 1 + 8 + 1, t);
        line := Line(tag, AddrOf(p[1..9]), 0, [], [], []);
      } else {
        var n := SizeOf(tag, NL_WRITE1B);
        pos, p := log.ReadLog(pos0, 1 + 8 + n + n + 1, t);
        line := Line(tag, AddrOf(p[1..9]), 0, p[9..9 + n], p[9 + n..9 + n + n], []);
      }
    }

    /** Records of variable length: address and length, then a skip. */
    method ShowVariable(pos0: LogPos, tag: byte, ghost t: nat, ghost r: Rec) returns (pos: LogPos, line: Line)
      requires log.Valid() && AtFwd(pos0, log.lines, t) && RecFrom(log.stream, t, r) && VarSized(r) && tag == Tag(r)
      requires Readable(log.lines, |log.stream|, log.flushed, t, Length(r))
      ensures AtFwd(pos, log.lines, t + Length(r)) && line == Shown(r)
    {
      hide LogBuffer.Valid, AtFwd, Encode, RecOk, AddrOf, UnLE, Readable;
      VariableParts(log.stream, t, r);
      ReadablePart(log.lines, |log.stream|, log.flushed, t, Length(r), 0, 13);
      ReadablePart(log.lines, |log.stream|, log.flushed, t, Length(r), 13, Length(r) - 13);
      var p, num;
      pos, p := log.ReadLog(pos0, 1 + 8 + 4, t);
      var len := UnLE(p[9..13]);
      line := Line(tag, AddrOf(p[1..9]), len, [], [], []);
      pos, num := log.ReadLogSkip(pos, if tag == NL_WRITEVCHAR then len + len + 4 + 1 else len + 4 + 1, t + 13);
    }

    /** A deletion record: the nodes one at a time. */
    method ShowDelete(pos0: LogPos, tag: byte, ghost t: nat, ghost r: Rec) returns (pos: LogPos, line: Line)
      requires log.Valid() && AtFwd(pos0, log.lines, t) && RecFrom(log.stream, t, r) && r.DelNode? && tag == Tag(r)
      requires Readable(log.lines, |log.stream|, log.flushed, t, Length(r))
      ensures AtFwd(pos, log.lines, t + Length(r)) && line == Shown(r)
    {
      hide LogBuffer.Valid, AtFwd, Encode, AddrOf, UnLE, Readable, RecFrom;
      DeleteParts(log.stream, t, r);
      ReadablePart(log.lines, |log.stream|, log.flushed, t, Length(r), 0, 5);
      var p, skipped;
      pos, p := log.ReadLog(pos0, 1 + 4, t);
      var num := UnLE(p[1..5]);
      var nodes: seq<Addr> := [];
      for i := 0 to num
        invariant AtFwd(pos, log.lines, t + 5 + 8 * i) && nodes == r.nodes[..i]
      {
        NodePart(log.stream, t, r, i);
        ReadablePart(log.lines, |log.stream|, log.flushed, t, Length(r), 5 + 8 * i, 8);
        pos, p := log.ReadLog(pos, 8, t + 5 + 8 * i);
        nodes := nodes + [AddrOf(p)];
      }
      ReadablePart(log.lines, |log.stream|, log.flushed, t, Length(r), 5 + 8 * num, 5);
      pos, skipped := log.ReadLogSkip(pos, 4 + 1, t + 5 + 8 * num);
      line := Line(tag, 0, 0, [], [], nodes);
    }

    /** One round of `print`. False is the exit on an unknown tag. */
    method ShowOne(pos0: LogPos, ghost t: nat, ghost r: Rec) returns (pos: LogPos, line: Line, ok: bool)
      requires log.Valid() && AtFwd(pos0, log.lines, t) && RecFrom(log.stream, t, r)
      requires Readable(log.lines, |log.stream|, log.flushed, t, Length(r))
      ensures ok && AtFwd(pos, log.lines, t + Length(r)) && line == Shown(r)
    {
      hide LogBuffer.Valid, AtFwd, Encode, Readable, Tag, RecOk, RecFrom;
      TagFirst(log.stream, t, r);
      HeadKinds(r);
      ReadablePart(log.lines, |log.stream|, log.flushed, t, Length(r), 0, 1);
      var tag := FirstByte(pos0, t);
      ok := true;
      if OneSize(tag) > 0 || SizeOf(tag, NL_WRITE1B) > 0 || tag == NL_ALLOCNODE {
        pos, line := ShowFixed(pos0, tag, t, r);
      } else if tag == NL_NEWVCHAR || tag == NL_WRITEVCHAR || tag == NL_REDOVCHAR {
        pos, line := ShowVariable(pos0, tag, t, r);
      } else if tag == NL_DELNODE {
        pos, line := ShowDelete(pos0, tag, t, r);
      } else if tag == NL_COMMIT || tag == NL_ABORT {
        var num;
        pos, num := log.ReadLogSkip(pos0, 1, t);
        line := Line(tag, 0, 0, [], [], []);
      } else {
        pos, ok := pos0, false;
      }
    }

    /** `print`: every record logged since the saved position is shown, in order, and nothing else. */
    method Print(txPos: LogPos, ghost t0: nat, ghost rs: seq<Rec>) returns (out: seq<Line>, ok: bool)
      requires log.Valid() && AtFwd(txPos, log.lines, t0) && MiniTransaction.InLog(log.stream, t0, rs) && forall r :: r in rs ==> RecOk(r)
      requires |log.stream| - t0 <= 62 * (log.lines - 1)
      modifies log`flushed, log`durable, log`window, log.area
      ensures log.Valid() && log.stream == old(log.stream) && ok && |out| == |rs| && forall i :: 0 <= i < |rs| ==> out[i] == Shown(rs[i])
    {
      hide LogBuffer.Valid, AtFwd, EncodeAll, Encode, Readable, RecOk, Length, Shown, MiniTransaction.InLog, RecFrom;
      log.FlushLog();
      log.CurAt();
      var end := log.CurPos();
      var pos := txPos;
      out, ok := [], true;
      ghost var i, t := 0, t0;
      Start(log.stream, t0, rs);
      while ok && pos.next != end.next
        invariant log.Valid() && log.flushed && log.stream == old(log.stream)
        invariant ok && i <= |rs| && t == t0 + |EncodeAll(rs[..i])| && AtFwd(pos, log.lines, t) && out == AllShown(rs[..i])
        decreases |rs| - i
      {
        NextRecord(log.stream, t0, rs, i, log.lines, pos, end);
        assert rs[..i + 1][..i] == rs[..i];
        var line;
        pos, line, ok := ShowOne(pos, t, rs[i]);
        out := out + [line];
        t := t + Length(rs[i]);
        i := i + 1;
      }
      AtEnd(log.stream, t0, rs, i, log.lines, pos, end);
      ShownAt(rs);
    }
  }

  /** One line for each record. */
  lemma {:induction false} ShownAt(rs: seq<Rec>)
    ensures |AllShown(rs)| == |rs| && forall i :: 0 <= i < |rs| ==> AllShown(rs)[i] == Shown(rs[i])
  {
    hide Shown;
    if rs != [] { ShownAt(rs[..|rs| - 1]); }
  }

  lemma {:induction false} Start(stream: seq<byte>, t0: nat, rs: seq<Rec>)
    requires MiniTransaction.InLog(stream, t0, rs)
    ensures |EncodeAll(rs[..0])| == 0 && AllShown(rs[..0]) == [] && t0 <= |stream|
  {
  }

  /** Where record `i` lies in the log. */
  lemma {:induction false} RecordAt(stream: seq<byte>, t0: nat, rs: seq<Rec>, i: nat)
    requires MiniTransaction.InLog(stream, t0, rs) && (forall r :: r in rs ==> RecOk(r)) && i < |rs|
    ensures var t := t0 + |EncodeAll(rs[..i])|;
      RecFrom(stream, t, rs[i]) && t + Length(rs[i]) == t0 + |EncodeAll(rs[..i + 1])| <= |stream| && Length(rs[i]) > 0
  {
    hide Encode, EncodeAll, RecOk, Length;
    var a, e, b := EncodeAll(rs[..i]), Encode(rs[i]), EncodeAll(rs[i + 1..]);
    assert rs[i] in rs;
    EncodeLast(rs[..i + 1]);
    assert rs[..i + 1][..i] == rs[..i];
    EncodeConcat(rs[..i + 1], rs[i + 1..]);
    assert rs == rs[..i + 1] + rs[i + 1..];
    MiniTransaction.RecShape(rs[i]);
    MiniTransaction.MiddleAt(stream, t0, a, e, b);
  }

  lemma {:induction false} WholeLog(stream: seq<byte>, t0: nat, rs: seq<Rec>)
    requires MiniTransaction.InLog(stream, t0, rs)
    ensures t0 + |EncodeAll(rs[..|rs|])| == |stream|
  {
    assert rs[..|rs|] == rs;
  }

  lemma {:induction false} NextRecord(stream: seq<byte>, t0: nat, rs: seq<Rec>, i: nat, lines: nat, pos: LogPos, end: LogPos)
    requires MiniTransaction.InLog(stream, t0, rs) && (forall r :: r in rs ==> RecOk(r)) && i <= |rs| && lines > 0
    requires AtFwd(pos, lines, t0 + |EncodeAll(rs[..i])|) && AtFwd(end, lines, |stream|) && pos.next != end.next && |stream| - t0 <= 62 * (lines - 1)
    ensures i < |rs|
    ensures var t := t0 + |EncodeAll(rs[..i])|;
      RecFrom(stream, t, rs[i]) && t + Length(rs[i]) == t0 + |EncodeAll(rs[..i + 1])| && Readable(lines, |stream|, true, t, Length(rs[i]))
  {
    hide AtFwd, EncodeAll, RecOk, Length, LineNo, RecFrom, MiniTransaction.InLog;
    var t := t0 + |EncodeAll(rs[..i])|;
    if i == |rs| {
      WholeLog(stream, t0, rs);
      FwdApart(pos, end, lines, t, t);
    }
    RecordAt(stream, t0, rs, i);
    MiniTransaction.WithinLap(t0, |stream|, lines);
    LinesUp(t0, t);
  }

  lemma {:induction false} AtEnd(stream: seq<byte>, t0: nat, rs: seq<Rec>, i: nat, lines: nat, pos: LogPos, end: LogPos)
    requires MiniTransaction.InLog(stream, t0, rs) && (forall r :: r in rs ==> RecOk(r)) && i <= |rs| && lines > 0
    requires AtFwd(pos, lines, t0 + |EncodeAll(rs[..i])|) && AtFwd(end, lines, |stream|) && pos.next == end.next && |stream| - t0 <= 62 * (lines - 1)
    ensures rs[..i] == rs
  {
    hide AtFwd, EncodeAll, RecOk, Length;
    if i < |rs| {
      RecordAt(stream, t0, rs, i);
      FwdApart(pos, end, lines, t0 + |EncodeAll(rs[..i])|, |stream|);
    }
  }

  /** The tag tells which kind of record it is. */
  lemma {:induction false} HeadKinds(r: Rec)
    requires RecOk(r)
    ensures OneSize(Tag(r)) > 0 <==> r.New? || r.Redo?
    ensures SizeOf(Tag(r), NL_WRITE1B) > 0 <==> r.Write?
    ensures r.New? || r.Redo? ==> OneSize(Tag(r)) == |r.val|
    ensures r.Write? ==> SizeOf(Tag(r), NL_WRITE1B) == |r.val|
    ensures Tag(r) == NL_ALLOCNODE <==> r.AllocNode?
    ensures Tag(r) == NL_NEWVCHAR || Tag(r) == NL_WRITEVCHAR || Tag(r) == NL_REDOVCHAR <==> VarSized(r)
    ensures Tag(r) == NL_WRITEVCHAR <==> r.WriteVchar?
    ensures Tag(r) == NL_DELNODE <==> r.DelNode?
    ensures Tag(r) == NL_COMMIT || Tag(r) == NL_ABORT <==> r.Commit? || r.Abort?
  {
    if r.New? || r.Write? || r.Redo? { SizedTags(|r.val|); }
  }

  lemma {:induction false} TagFirst(stream: seq<byte>, t: nat, r: Rec)
    requires RecFrom(stream, t, r)
    ensures RecOk(r) && t < |stream| && stream[t] == Tag(r) && Length(r) > 0
    ensures Fixed(r) || VarSized(r) || r.DelNode? || Length(r) == 1
  {
    MiniTransaction.RecShape(r);
    HeadByte(Encode(r), r);
    assert stream[t..t + Length(r)][0] == stream[t];
    hide Encode, Tag, RecOk;
  }

  lemma {:induction false} HeadByte(e: seq<byte>, r: Rec)
    requires RecOk(r) && FieldsAt(e, 0, r)
    ensures e != [] && e[0] == Tag(r)
  {
    hide Tag, Cut, AddrOf, UnLE;
  }

  lemma {:induction false} FixedParts(r: Rec)
    requires RecOk(r) && Fixed(r)
    ensures var e := Encode(r);
      && |e| == Length(r)
      && (r.New? || r.Redo? ==> AddrOf(e[1..9]) == r.addr && e[9..9 + |r.val|] == r.val)
      && (r.Write? ==> |r.was| == |r.val| && AddrOf(e[1..9]) == r.addr && e[9..9 + |r.val|] == r.was && e[9 + |r.val|..9 + |r.val| + |r.val|] == r.val)
      && (r.AllocNode? ==> AddrOf(e[1..9]) == r.node)
  {
    MiniTransaction.RecShape(r);
    FixedFields0(Encode(r), r);
    hide Encode, AddrOf;
  }

  lemma {:induction false} FixedFields0(e: seq<byte>, r: Rec)
    requires RecOk(r) && Fixed(r) && |e| == Length(r) && FieldsAt(e, 0, r)
    ensures r.New? || r.Redo? ==> AddrOf(e[1..9]) == r.addr && e[9..9 + |r.val|] == r.val
    ensures r.Write? ==> |r.was| == |r.val| && AddrOf(e[1..9]) == r.addr && e[9..9 + |r.val|] == r.was && e[9 + |r.val|..9 + |r.val| + |r.val|] == r.val
    ensures r.AllocNode? ==> AddrOf(e[1..9]) == r.node
  {
    hide AddrOf, Tag;
  }

  lemma {:induction false} VariableParts(stream: seq<byte>, t: nat, r: Rec)
    requires RecFrom(stream, t, r) && VarSized(r)
    ensures Length(r) == (if r.WriteVchar? then 2 * |r.val| + 18 else |r.val| + 18) && t + 13 <= |stream|
    ensures var p := stream[t..t + 13]; AddrOf(p[1..9]) == r.addr && UnLE(p[9..13]) == |r.val|
  {
    hide Encode, AddrOf, UnLE, Tag, RecOk, FieldsAt;
    MiniTransaction.RecShape(r);
    var e := Encode(r);
    VariableFields0(e, r);
    if r.WriteVchar? { Same(r); }
    SubSlice(stream, t, t + |e|, 1, 8);
    SubSlice(stream, t, t + 13, 1, 8);
    SubSlice(stream, t, t + |e|, 9, 4);
    SubSlice(stream, t, t + 13, 9, 4);
  }

  lemma {:induction false} Same(r: Rec)
    requires RecOk(r) && r.WriteVchar?
    ensures |r.was| == |r.val|
  {
  }

  lemma {:induction false} VariableFields0(e: seq<byte>, r: Rec)
    requires RecOk(r) && VarSized(r) && |e| == Length(r) && FieldsAt(e, 0, r)
    ensures AddrOf(e[1..9]) == r.addr && UnLE(e[9..13]) == |r.val|
  {
    hide AddrOf, UnLE, Tag;
  }

  lemma {:induction false} DeleteParts(stream: seq<byte>, t: nat, r: Rec)
    requires RecFrom(stream, t, r) && r.DelNode?
    ensures Length(r) == 8 * |r.nodes| + 10 && t + Length(r) <= |stream| && UnLE(stream[t..t + 5][1..5]) == |r.nodes|
  {
    hide Encode, UnLE, NodesOf, Tag, RecOk, FieldsAt;
    MiniTransaction.RecShape(r);
    var e := Encode(r);
    DeleteFields0(e, r);
    SubSlice(stream, t, t + |e|, 1, 4);
    SubSlice(stream, t, t + 5, 1, 4);
  }

  lemma {:induction false} DeleteFields0(e: seq<byte>, r: Rec)
    requires RecOk(r) && r.DelNode? && |e| == Length(r) && FieldsAt(e, 0, r)
    ensures NodesOf(e[5..5 + 8 * |r.nodes|]) == r.nodes && UnLE(e[1..5]) == |r.nodes|
  {
    hide NodesOf, UnLE, Tag;
  }

  lemma {:induction false} NodePart(stream: seq<byte>, t: nat, r: Rec, i: nat)
    requires RecFrom(stream, t, r) && r.DelNode? && i < |r.nodes|
    ensures t + 5 + 8 * i + 8 <= |stream| && AddrOf(stream[t + 5 + 8 * i..t + 5 + 8 * i + 8]) == r.nodes[i]
  {
    hide Encode, NodesOf, AddrOf, Tag, RecOk, FieldsAt;
    var e, n := Encode(r), |r.nodes|;
    MiniTransaction.RecShape(r);
    DeleteFields0(e, r);
    NodeOf(e[5..5 + 8 * n], i);
    SubSlice(e, 5, 5 + 8 * n, 8 * i, 8);
    SubSlice(stream, t, t + |e|, 5 + 8 * i, 8);
  }

  lemma {:induction false} FirstNode(bs: seq<byte>)
    requires 8 <= |bs|
    ensures NodesOf(bs) == [AddrOf(bs[..8])] + NodesOf(bs[8..])
  {
    hide AddrOf;
  }

  lemma {:induction false} NodeOf(bs: seq<byte>, i: nat)
    requires 8 * i + 8 <= |bs|
    ensures i < |NodesOf(bs)| && NodesOf(bs)[i] == AddrOf(bs[8 * i..8 * i + 8])
  {
    hide NodesOf, AddrOf;
    FirstNode(bs);
    if i > 0 {
      NodeOf(bs[8..], i - 1);
      SubSlice(bs, 8, |bs|, 8 * (i - 1), 8);
      assert bs[8..] == bs[8..|bs|];
    }
  }
}
