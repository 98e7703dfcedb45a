/** `NvmLog`: mini-transactions with undo, redo and node allocation over the log. */
module MiniTransaction {
  import opened Types
  import opened Bytes
  import opened LogArea
  import opened LogCodec
  import opened LogUndo
  import opened MemPool

  /** The nodes allocated by the records, in order. */
  function Allocs(rs: seq<Rec>): seq<Ptr> {
    if rs == [] then [] else Allocs(rs[..|rs| - 1]) + if rs[|rs| - 1].AllocNode? then [rs[|rs| - 1].node] else []
  }

  /** The pool has given out `given` since its free list was `was`: first from the list, then from the end of the pool. */
  predicate GivenOut(was: seq<Ptr>, given: seq<Ptr>, free: seq<Ptr>) {
    var k := Min(|was|, |given|);
    given[..k] == was[..k] && free == was[k..]
  }

  predicate Distinct(s: seq<Ptr>) {
    forall i, j :: 0 <= i < j < |s| ==> s[i] != s[j]
  }

  /** The records are in the log from position `t0` on. */
  predicate InLog(stream: seq<byte>, t0: nat, rs: seq<Rec>) {
    t0 <= |stream| && stream[t0..] == EncodeAll(rs)
  }

  /** Every overwrite among the first `done` records is within the durable part of the log. */
  predicate WriteAhead(rs: seq<Rec>, done: nat, t0: nat, durable: nat) {
    forall i :: 0 <= i < done && i < |rs| && Overwrite(rs[i]) ==> t0 + |EncodeAll(rs[..i + 1])| <= durable
  }

  /** Log and memory of a running transaction, `done` of whose records have had their store made. */
  ghost predicate TxOk(stream: seq<byte>, durable: nat, m: seq<byte>, t0: nat, base: seq<byte>, rs: seq<Rec>, done: nat) {
    && InLog(stream, t0, rs) && Running(rs) && Logged(base, rs) && done <= |rs| && m == DoAll(base, rs[..done])
    && WriteAhead(rs, done, t0, durable)
  }

  /** The pool of a running transaction. */
  ghost predicate PoolOk(was: seq<Ptr>, rs: seq<Rec>, free: seq<Ptr>, used: set<Ptr>) {
    var given := Allocs(rs);
    GivenOut(was, given, free) && Distinct(given) && forall p :: p in given ==> p in used
  }

  /** A redo record in the volatile list. */
  predicate RedoOk(r: Rec, size: nat) {
    (r.Redo? || r.RedoVchar?) && RecOk(r) && r.addr + |r.val| <= size
  }

  class NvmLog {
    const log: LogBuffer
    /** The part of NVM that transactions write. */
    const mem: array<byte>
    const pool: Mempool
    /** `nl_log_tx_pos_` */
    var txPos: LogPos
    /** `nl_node_to_del_` */
    var nodeToDel: seq<Addr>
    /** `nl_redo_rec_`, in the form of the records they will become */
    var redoRec: seq<Rec>
    // The transaction so far: log position, memory, and free list at its start, its records, and how many of their stores are made.
    ghost var t0: nat
    ghost var base: seq<byte>
    ghost var freeAtStart: seq<Ptr>
    ghost var recs: seq<Rec>
    ghost var done: nat

    /** What holds between transactions. */
    ghost predicate Idle()
      reads this, log, log.area, mem, pool
    {
      && log.Valid() && pool.Valid() && pool.end <= ADDR_LIMIT && mem.Length <= ADDR_LIMIT && mem != log.area
    }

    /** Log, memory and volatile lists of a running transaction. */
    ghost predicate Logging()
      reads this, log, log.area, mem, pool
    {
      && Idle() && AtFwd(txPos, log.lines, t0) && TxOk(log.stream, log.durable, mem[..], t0, base, recs, done)
      && (forall r :: r in redoRec ==> RedoOk(r, mem.Length)) && |nodeToDel| < LEN_LIMIT
    }

    /** What holds at every step of a transaction. */
    ghost predicate Valid()
      reads this, log, log.area, mem, pool
    {
      Logging() && PoolOk(freeAtStart, recs, pool.free, pool.used)
    }

    /** `init` */
    constructor (log: LogBuffer, mem: array<byte>, pool: Mempool)
      requires log.Valid() && pool.Valid() && pool.end <= ADDR_LIMIT && mem.Length <= ADDR_LIMIT && mem != log.area
      ensures Idle() && this.log == log && this.mem == mem && this.pool == pool
    {
      this.log, this.mem, this.pool := log, mem, pool;
      txPos, nodeToDel, redoRec := LogPos(0, 0, 0, 0), [], [];
      t0, base, freeAtStart, recs, done := 0, [], [], [], 0;
    }

    /** `startMiniTransaction` */
    method Start()
      requires Idle()
      modifies this
      ensures Valid() && recs == [] && done == 0 && base == mem[..] && freeAtStart == pool.free && redoRec == [] && nodeToDel == []
      ensures t0 == |log.stream|
    {
      hide LogBuffer.Valid, Mempool.Valid, AtFwd, TxOk, PoolOk;
      log.CurAt();
      txPos := log.CurPos();
      nodeToDel, redoRec := [], [];
      t0, base, freeAtStart, recs, done := |log.stream|, mem[..], pool.free, [], 0;
      TxStart(log.stream, log.durable, mem[..], pool.free, pool.used);
    }

    // -------------------------------------------------------------- logged writes

    /** Put one record of fixed size into the log. */
    method LogRecord(r: Rec)
      requires Valid() && done == |recs| && Undoable(r) && RecLogged(mem[..], r) && !r.AllocNode?
      modifies log, log.area, `recs
      ensures Valid() && recs == old(recs) + [r] && done == old(done) && log.durable >= old(log.durable)
      ensures mem[..] == old(mem[..])
    {
      hide LogBuffer.Valid, Mempool.Valid, AtFwd, TxOk, PoolOk, Encode, Undoable, RecLogged, RedoOk;
      ghost var m, stream, d := mem[..], log.stream, log.durable;
      log.WriteLog(Encode(r));
      Recorded(recs, r, base, t0, m, stream, log.stream, d, log.durable);
      NoAlloc(freeAtStart, recs, r, pool.free, pool.used);
      recs := recs + [r];
    }

    method WritePieces(head: seq<byte>, was: seq<byte>, val: seq<byte>, tail: seq<byte>)
      requires log.Valid()
      modifies log, log.area
      ensures log.Valid() && log.stream == old(log.stream) + (head + was + val + tail) && log.durable >= old(log.durable)
    {
      ghost var s := log.stream;
      log.WriteLog(head);
      if |was| > 0 { log.WriteLog(was); }
      log.WriteLog(val);
      log.WriteLog(tail);
      FourPieces(s, head, was, val, tail);
    }

    /** Put a record of variable length into the log, piece by piece: tag, address and length; the contents; length and tag. */
    method LogVchar(r: Rec)
      requires Valid() && done == |recs| && Undoable(r) && RecLogged(mem[..], r) && (r.NewVchar? || r.WriteVchar?)
      modifies log, log.area, `recs
      ensures Valid() && recs == old(recs) + [r] && done == old(done) && log.durable >= old(log.durable)
      ensures mem[..] == old(mem[..])
    {
      hide LogBuffer.Valid, Mempool.Valid, AtFwd, TxOk, PoolOk, Encode, Undoable, RecLogged, RedoOk, LE, Tag;
      ghost var m, stream, d := mem[..], log.stream, log.durable;
      WritePieces([Tag(r)] + LE(r.addr, 8) + LE(|r.val|, 4), if r.WriteVchar? then r.was else [], r.val, LE(|r.val|, 4) + [Tag(r)]);
      VcharPieces(r);
      Recorded(recs, r, base, t0, m, stream, log.stream, d, log.durable);
      NoAlloc(freeAtStart, recs, r, pool.free, pool.used);
      recs := recs + [r];
    }

    /** The data write of the last record; for an overwrite the record must be durable by now. */
    method Perform(addr: Addr, val: seq<byte>)
      requires Valid() && done < |recs| && done == |recs| - 1 && (Overwrite(recs[done]) || Fresh(recs[done]))
      requires recs[done].addr == addr && recs[done].val == val
      requires Overwrite(recs[done]) ==> log.durable == |log.stream|
      modifies mem, `done
      ensures Valid() && done == |recs| && mem[..] == Store(old(mem[..]), addr, val)
    {
      hide LogBuffer.Valid, Mempool.Valid, AtFwd, TxOk, PoolOk, RedoOk;
      Performed(log.stream, log.durable, mem[..], t0, base, recs, done);
      Memcpy(mem, addr, val);
      done := done + 1;
    }

    /** `write1B`, `write2B`, `write4B`, `write8B` */
    method WriteB(addr: Addr, val: seq<byte>)
      requires Valid() && done == |recs| && Word(|val|) && addr + |val| <= mem.Length
      modifies log, log.area, mem, `recs, `done
      ensures Valid() && done == |recs| && recs == old(recs) + [Write(addr, old(mem[addr..addr + |val|]), val)]
      ensures mem[..] == Patch(old(mem[..]), addr, val)
    {
      hide LogBuffer.Valid, Mempool.Valid, AtFwd, TxOk, PoolOk, RedoOk;
      var r := Write(addr, mem[addr..addr + |val|], val);
      SliceArea(mem, addr, |val|);
      LogRecord(r);
      Flush();
      Perform(addr, val);
    }

    /** `writeVchar` */
    method WriteV(addr: Addr, val: seq<byte>)
      requires Valid() && done == |recs| && |val| < LEN_LIMIT && addr + |val| <= mem.Length
      modifies log, log.area, mem, `recs, `done
      ensures Valid() && done == |recs| && recs == old(recs) + [WriteVchar(addr, old(mem[addr..addr + |val|]), val)]
      ensures mem[..] == Patch(old(mem[..]), addr, val)
    {
      hide LogBuffer.Valid, Mempool.Valid, AtFwd, TxOk, PoolOk, RedoOk;
      var r := WriteVchar(addr, mem[addr..addr + |val|], val);
      SliceArea(mem, addr, |val|);
      LogVchar(r);
      Flush();
      Perform(addr, val);
    }

    /** `new1B`, `new2B`, `new4B`, `new8B`: logged, but the log is not flushed. */
    method NewB(addr: Addr, val: seq<byte>)
      requires Valid() && done == |recs| && Word(|val|) && addr + |val| <= mem.Length
      modifies log, log.area, mem, `recs, `done
      ensures Valid() && done == |recs| && recs == old(recs) + [New(addr, val)]
      ensures mem[..] == Patch(old(mem[..]), addr, val)
    {
      hide LogBuffer.Valid, Mempool.Valid, AtFwd, TxOk, PoolOk, RedoOk;
      LogRecord(New(addr, val));
      Perform(addr, val);
    }

    /** `newVchar` */
    method NewV(addr: Addr, val: seq<byte>)
      requires Valid() && done == |recs| && |val| < LEN_LIMIT && addr + |val| <= mem.Length
      modifies log, log.area, mem, `recs, `done
      ensures Valid() && done == |recs| && recs == old(recs) + [NewVchar(addr, val)]
      ensures mem[..] == Patch(old(mem[..]), addr, val)
    {
      hide LogBuffer.Valid, Mempool.Valid, AtFwd, TxOk, PoolOk, RedoOk;
      LogVchar(NewVchar(addr, val));
      Perform(addr, val);
    }

    /** `allocNode` */
    method TakeNode() returns (ptr: Option<Ptr>)
      requires Valid() && done == |recs|
      modifies log, log.area, pool, `recs, `done
      ensures Valid() && done == |recs| && mem[..] == old(mem[..])
      ensures ptr.Some? ==> 0 <= ptr.value < ADDR_LIMIT && recs == old(recs) + [AllocNode(ptr.value)] && ptr.value !in old(pool.used)
      ensures ptr == None <==> old(pool.free) == [] && old(pool.cur) + pool.size > pool.end
      ensures ptr == None ==> recs == old(recs) && log.stream == old(log.stream)
      ensures ptr.Some? ==> ptr.value == if old(pool.free) != [] then old(pool.free)[0] else old(pool.cur)
    {
      hide LogBuffer.Valid, Mempool.Valid, AtFwd, TxOk, PoolOk, RedoOk;
      ghost var free, used := pool.free, pool.used;
      ptr := pool.AllocNode();
      if ptr == None { return; }
      OneAlloc(freeAtStart, recs, AllocNode(ptr.value), free, used, pool.free, pool.used);
      LogNode(ptr.value);
    }

    /** The record of an allocation, flushed. */
    method LogNode(ptr: Addr)
      requires Logging() && done == |recs|
      modifies log, log.area, `recs, `done
      ensures Logging() && done == |recs| && mem[..] == old(mem[..]) && recs == old(recs) + [AllocNode(ptr)]
    {
      hide LogBuffer.Valid, Mempool.Valid, AtFwd, TxOk, PoolOk, Encode, Undoable, RecLogged, RedoOk;
      var r := AllocNode(ptr);
      ghost var m, stream, d := mem[..], log.stream, log.durable;
      log.WriteLog(Encode(r));
      log.FlushLog();
      NodeRecord(r, m);
      Recorded(recs, r, base, t0, m, stream, log.stream, d, log.durable);
      recs := recs + [r];
      NoStore(log.stream, log.durable, mem[..], t0, base, recs, done);
      done := done + 1;
    }

    /** `delNode`: the node is freed at commit. */
    method DropNode(p: Addr)
      requires Valid() && |nodeToDel| + 1 < LEN_LIMIT
      modifies `nodeToDel
      ensures Valid() && nodeToDel == old(nodeToDel) + [p]
    {
      nodeToDel := nodeToDel + [p];
    }

    /** `redoWrite1B`, `redoWrite2B`, `redoWrite4B`, `redoWrite8B`: memory is not touched before the commit. */
    method RedoB(addr: Addr, val: seq<byte>)
      requires Valid() && Word(|val|) && addr + |val| <= mem.Length
      modifies `redoRec
      ensures Valid() && redoRec == old(redoRec) + [Redo(addr, val)]
    {
      redoRec := redoRec + [Redo(addr, val)];
    }

    /** `redoWriteVchar` */
    method RedoV(addr: Addr, val: seq<byte>)
      requires Valid() && |val| < LEN_LIMIT && addr + |val| <= mem.Length
      modifies `redoRec
      ensures Valid() && redoRec == old(redoRec) + if |val| > 0 then [RedoVchar(addr, val)] else []
    {
      if |val| > 0 { redoRec := redoRec + [RedoVchar(addr, val)]; }
    }

    /** `flushLog` within a transaction */
    method Flush()
      requires Valid()
      modifies log, log.area
      ensures Valid() && log.durable == |log.stream| && log.stream == old(log.stream) && mem[..] == old(mem[..])
    {
      hide LogBuffer.Valid, Mempool.Valid, AtFwd, PoolOk, RedoOk, Logged, Running, InLog, DoAll;
      ghost var d := log.durable;
      log.FlushLog();
      AheadMore(recs, done, t0, d, log.durable);
    }

    // -------------------------------------------------------------- abort

    /** The last byte before a backward position, `backward.next_ptr_[-1]`. */
    method LastByte(pos: LogPos, ghost at: nat) returns (tag: byte)
      requires log.Valid() && AtRev(pos, log.lines, at) && RevReadable(log.lines, |log.stream|, log.flushed, at, 1)
      ensures tag == log.stream[at - 1]
    {
      hide AtRev, Slot, Flip, LineNo, Col;
      ChunkBack(log.area[..], log.lines, log.stream, log.flushed, at, 1, pos);
      SliceArea(log.area, pos.next - 1, 1);
      tag := log.area[pos.next - 1];
      OneByte(log.area[..], log.stream, pos.next, at);
    }

    /** The NEW cases of `abortMiniTransaction`: skip the record. */
    method SkipNew(pos0: LogPos, tag: byte, ghost at: nat, ghost r: Rec) returns (pos: LogPos)
      requires log.Valid() && AtRev(pos0, log.lines, at) && RecBefore(log.stream, at, r) && Fresh(r) && tag == Tag(r)
      requires RevReadable(log.lines, |log.stream|, log.flushed, at, Length(r))
      ensures AtRev(pos, log.lines, at - Length(r))
    {
      hide LogBuffer.Valid, Mempool.Valid, AtFwd, AtRev, TxOk, PoolOk, Encode, RecOk, UnLE, AddrOf;
      TagBefore(log.stream, at, r);
      if r.NewVchar? { LenBefore(log.stream, at, r); }
      var num;
      if tag == NL_NEWVCHAR {
        var p;
        pos, p := log.ReadLogReverse(pos0, 4 + 1, at);
        var len := UnLE(p[..4]);
        pos, num := log.ReadLogReverseSkip(pos, 1 + 8 + 4 + len, at - 5);
      } else {
        pos, num := log.ReadLogReverseSkip(pos0, 1 + 8 + SizeOf(tag, NL_NEW1B) + 1, at);
      }
    }

    /** The WRITE cases of fixed size: read the record back and restore the old value. */
    method UndoWrite(pos0: LogPos, tag: byte, ghost at: nat, ghost r: Rec) returns (pos: LogPos)
      requires log.Valid() && AtRev(pos0, log.lines, at) && RecBefore(log.stream, at, r) && r.Write? && tag == Tag(r)
      requires RevReadable(log.lines, |log.stream|, log.flushed, at, Length(r)) && r.addr + |r.was| <= mem.Length && mem != log.area
      modifies mem
      ensures AtRev(pos, log.lines, at - Length(r)) && mem[..] == Undo(old(mem[..]), r)
    {
      hide LogBuffer.Valid, Mempool.Valid, AtFwd, AtRev, TxOk, PoolOk, Encode, RecOk, UnLE, AddrOf;
      TagBefore(log.stream, at, r);
      WriteParts(r);
      var n := SizeOf(tag, NL_WRITE1B);
      var p;
      pos, p := log.ReadLogReverse(pos0, 1 + 8 + n + n + 1, at);
      Memcpy(mem, AddrOf(p[1..9]), p[9..9 + n]);
    }

    /** The WRITE case of variable length: the length first, then the rest of the record. */
    method UndoWriteV(pos0: LogPos, ghost at: nat, ghost r: Rec) returns (pos: LogPos)
      requires log.Valid() && AtRev(pos0, log.lines, at) && RecBefore(log.stream, at, r) && r.WriteVchar?
      requires RevReadable(log.lines, |log.stream|, log.flushed, at, Length(r)) && r.addr + |r.was| <= mem.Length && mem != log.area
      modifies mem
      ensures AtRev(pos, log.lines, at - Length(r)) && mem[..] == Undo(old(mem[..]), r)
    {
      hide LogBuffer.Valid, Mempool.Valid, AtFwd, AtRev, TxOk, PoolOk, Encode, RecOk, UnLE, AddrOf;
      LenBefore(log.stream, at, r);
      VcharParts(log.stream, at, r);
      var p, buf;
      pos, p := log.ReadLogReverse(pos0, 4 + 1, at);
      var len := UnLE(p[..4]);
      pos, buf := log.ReadLogReverse(pos, 1 + 8 + 4 + len + len, at - 5);
      Memcpy(mem, AddrOf(buf[1..9]), buf[13..13 + len]);
    }

    /** The ALLOCNODE case: free the node. */
    method UndoAlloc(pos0: LogPos, ghost at: nat, ghost r: Rec) returns (pos: LogPos)
      requires log.Valid() && AtRev(pos0, log.lines, at) && RecBefore(log.stream, at, r) && r.AllocNode?
      requires RevReadable(log.lines, |log.stream|, log.flushed, at, Length(r)) && pool.Valid() && r.node in pool.used
      modifies pool
      ensures AtRev(pos, log.lines, at - Length(r)) && pool.Valid()
      ensures pool.free == [r.node] + old(pool.free) && pool.used == old(pool.used) - {r.node} && pool.end == old(pool.end)
    {
      hide LogBuffer.Valid, Mempool.Valid, AtFwd, AtRev, TxOk, PoolOk, Encode, RecOk, UnLE, AddrOf;
      AllocParts(r);
      TagBefore(log.stream, at, r);
      var p;
      pos, p := log.ReadLogReverse(pos0, 1 + 8 + 1, at);
      pool.FreeNode(AddrOf(p[1..9]));
    }

    /** One round of the loop of `abortMiniTransaction`: undo the record that ends at the position. False is the exit on an unknown tag. */
    method UndoOne(pos0: LogPos, ghost at: nat, ghost r: Rec) returns (pos: LogPos, ok: bool)
      requires log.Valid() && AtRev(pos0, log.lines, at) && RecBefore(log.stream, at, r) && mem != log.area && pool.Valid()
      requires RevReadable(log.lines, |log.stream|, log.flushed, at, Length(r))
      requires Overwrite(r) ==> r.addr + |r.was| <= mem.Length
      requires r.AllocNode? ==> r.node in pool.used
      modifies mem, pool
      ensures ok && AtRev(pos, log.lines, at - Length(r)) && mem[..] == Undo(old(mem[..]), r) && pool.Valid()
      ensures pool.free == (if r.AllocNode? then [r.node] else []) + old(pool.free)
      ensures pool.used == old(pool.used) - (if r.AllocNode? then {r.node} else {}) && pool.end == old(pool.end)
    {
      hide LogBuffer.Valid, Mempool.Valid, AtFwd, AtRev, TxOk, PoolOk, Encode, Length, RevReadable, Tag, RecOk;
      Kinds(r);
      TagBefore(log.stream, at, r);
      OneReadable(log.lines, |log.stream|, log.flushed, at, Length(r));
      var tag := LastByte(pos0, at);
      ok := true;
      if SizeOf(tag, NL_NEW1B) > 0 || tag == NL_NEWVCHAR {
        pos := SkipNew(pos0, tag, at, r);
      } else if SizeOf(tag, NL_WRITE1B) > 0 {
        pos := UndoWrite(pos0, tag, at, r);
      } else if tag == NL_WRITEVCHAR {
        pos := UndoWriteV(pos0, at, r);
      } else if tag == NL_ALLOCNODE {
        pos := UndoAlloc(pos0, at, r);
      } else {
        pos, ok := pos0, false;
      }
    }

    /** One round of the loop of `abortMiniTransaction`. */
    method UndoRound(pos0: LogPos, ghost i: nat, ghost m1: seq<byte>, ghost f1: seq<Ptr>) returns (pos: LogPos, ok: bool)
      requires Idle() && log.flushed && |base| == mem.Length && |log.stream| - t0 <= 62 * (log.lines - 1)
      requires UndoInv(log.lines, log.stream, t0, base, recs, i, pos0, m1, mem[..], f1, pool.free, pool.used)
      requires pos0.next != RevNext(log.lines, t0)
      modifies mem, pool
      ensures Idle() && ok && i > 0
      ensures UndoInv(log.lines, log.stream, t0, base, recs, i - 1, pos, m1, mem[..], f1, pool.free, pool.used)
    {
      hide Slot, Flip, LineNo, Col, AbortFacts, Undone, NodesLeft, LogBuffer.Valid, Mempool.Valid, AtRev, RecBefore, RevReadable, Undo, Length, EncodeAll;
      ghost var m, free, used, at := mem[..], pool.free, pool.used, t0 + |EncodeAll(recs[..i])|;
      RevNextOf(pos0, log.lines, at);
      RoundReady(log.lines, log.stream, t0, base, recs, i, at);
      NextAlloc(recs, i, used);
      pos, ok := UndoOne(pos0, at, recs[i - 1]);
      RoundDone(recs, i, m1, m, mem[..], f1, free, pool.free, used, pool.used);
    }

    /** `abortMiniTransaction`, up to the abort record: all records are undone, last one first. */
    method UndoLoop() returns (ok: bool)
      requires Valid() && done == |recs| && Col(|log.stream|) > 0 && |log.stream| - t0 <= 62 * (log.lines - 1)
      modifies log`flushed, log`durable, log`window, log.area, mem, pool
      ensures ok && Idle() && log.stream == old(log.stream) && mem[..] == UndoAll(old(mem[..]), recs)
      ensures pool.free == Allocs(recs) + old(pool.free)
    {
      hide TxOk, PoolOk, LogBuffer.Valid, Mempool.Valid, AtFwd, AtRev, AtFresh, AbortFacts, Undone, NodesLeft, EncodeAll, Slot, Flip, LineNo, Col;
      ghost var m1, f1, stream := mem[..], pool.free, log.stream;
      UndoStart(stream, log.durable, m1, t0, base, recs, freeAtStart, f1, pool.used);
      var backward := log.PrepareForReverseRead(log.CurPos());
      log.AreaSize();
      var pEnd := log.ReverseAdjustPtr(txPos, t0);
      ghost var i: nat := |recs|;
      ok := true;
      assert UndoInv(log.lines, stream, t0, base, recs, i, backward, m1, mem[..], f1, pool.free, pool.used);
      hide UndoInv;
      while ok && backward.next != pEnd
        invariant ok && Idle() && log.flushed && log.stream == stream
        invariant UndoInv(log.lines, stream, t0, base, recs, i, backward, m1, mem[..], f1, pool.free, pool.used)
        decreases i
      {
        backward, ok := UndoRound(backward, i, m1, f1);
        i := i - 1;
      }
      AllUndone(log.lines, stream, t0, base, recs, i, backward, m1, mem[..], f1, pool.free, pool.used);
    }

    /**
     * `abortMiniTransaction`. The write position must not be at byte 2 of a line, see `ReachBack`, and the
     * transaction's bytes must not lap the buffer.
     */
    method Abort() returns (ok: bool)
      requires Valid() && done == |recs| && Col(|log.stream|) > 0 && |log.stream| - t0 <= 62 * (log.lines - 1)
      modifies log, log.area, mem, pool
      ensures ok && Idle() && log.stream == old(log.stream) + [NL_ABORT] && log.durable == |log.stream|
      ensures forall a :: 0 <= a < mem.Length && NotFresh(recs, a) ==> mem[a] == base[a]
      ensures forall a, k :: 0 <= a < mem.Length && FirstOverwrite(recs, k, a) ==> mem[a] == DoAll(base, recs[..k])[a]
      ensures pool.free == freeAtStart + Bumped(freeAtStart, recs)
    {
      hide TxOk, PoolOk, LogBuffer.Valid, Mempool.Valid, AtFwd, UndoAll, DoAll, Bumped, NotFresh, FirstOverwrite;
      ghost var free := pool.free;
      TxFacts(log.stream, log.durable, mem[..], t0, base, recs);
      ok := UndoLoop();
      Restored(base, recs, mem[..]);
      FreeList(freeAtStart, recs, free, old(pool.used));
      log.WriteLog([NL_ABORT]);
      log.FlushLog();
    }

    // -------------------------------------------------------------- commit

    /** The loop of `commitMiniTransaction` that logs the redo records. */
    method LogRedo()
      requires log.Valid() && forall r :: r in redoRec ==> RedoOk(r, mem.Length)
      modifies log, log.area
      ensures log.Valid() && log.stream == old(log.stream) + EncodeAll(redoRec)
    {
      hide LogBuffer.Valid, Encode, EncodeAll, RecOk, LE, Tag;
      ghost var s := log.stream;
      EncodedSome(s, redoRec, 0);
      for i := 0 to |redoRec|
        invariant log.Valid() && log.stream == s + EncodeAll(redoRec[..i])
      {
        var r := redoRec[i];
        assert r in redoRec;
        if r.Redo? {
          log.WriteLog(Encode(r));
        } else {
          WritePieces([Tag(r)] + LE(r.addr, 8) + LE(|r.val|, 4), [], r.val, LE(|r.val|, 4) + [Tag(r)]);
          RedoPieces(r);
        }
        EncodedSome(s, redoRec, i + 1);
      }
      assert redoRec[..|redoRec|] == redoRec;
    }

    /** The deletion record, if there is anything to delete. */
    method LogDeletes()
      requires log.Valid() && |nodeToDel| < LEN_LIMIT
      modifies log, log.area
      ensures log.Valid() && log.stream == old(log.stream) + if nodeToDel == [] then [] else Encode(DelNode(nodeToDel))
    {
      hide LogBuffer.Valid, LE, NodeBytes;
      if |nodeToDel| > 0 {
        WritePieces([NL_DELNODE] + LE(|nodeToDel|, 4), [], NodeBytes(nodeToDel), LE(|nodeToDel|, 4) + [NL_DELNODE]);
        DeletePieces(nodeToDel);
      }
    }

    /** The stores of the redo records. None of them is made before the commit record is durable. */
    method ApplyRedo()
      requires forall r :: r in redoRec ==> RedoOk(r, mem.Length)
      requires redoRec != [] ==> log.stream != [] && log.stream[|log.stream| - 1] == NL_COMMIT && log.durable == |log.stream|
      modifies mem
      ensures mem[..] == DoAll(old(mem[..]), redoRec)
    {
      hide RecOk;
      ghost var m0 := mem[..];
      for i := 0 to |redoRec|
        invariant mem[..] == DoAll(m0, redoRec[..i])
      {
        var r := redoRec[i];
        assert r in redoRec;
        Memcpy(mem, r.addr, r.val);
        assert redoRec[..i + 1][..i] == redoRec[..i];
      }
      assert redoRec[..|redoRec|] == redoRec;
    }

    /** The actual deletions. */
    method FreeNodes()
      requires pool.Valid() && Distinct(nodeToDel) && forall p :: p in nodeToDel ==> p in pool.used
      modifies pool
      ensures pool.Valid() && pool.end == old(pool.end) && pool.free == Backwards(nodeToDel) + old(pool.free)
      ensures forall p :: p in pool.used <==> p in old(pool.used) && p !in nodeToDel
    {
      hide Mempool.Valid, Backwards;
      ghost var free, used := pool.free, pool.used;
      NoneBackwards(nodeToDel);
      for i := 0 to |nodeToDel|
        invariant pool.Valid() && pool.end == old(pool.end) && pool.free == Backwards(nodeToDel[..i]) + free
        invariant forall p :: p in pool.used <==> p in used && p !in nodeToDel[..i]
      {
        var p := nodeToDel[i];
        assert p in nodeToDel && p !in nodeToDel[..i];
        pool.FreeNode(p);
        BackwardsMore(nodeToDel, i);
      }
      assert nodeToDel[..|nodeToDel|] == nodeToDel;
    }

    /** The part of `commitMiniTransaction` before the stores: redo records, deletion record, and the commit record if there is any record at all. */
    method LogCommit()
      requires Logging() && |log.stream| + |EncodeAll(redoRec)| + |EncodeAll(Deletion(nodeToDel))| - t0 <= 62 * (log.lines - 1)
      modifies log, log.area
      ensures Idle() && t0 <= |log.stream| && log.stream[t0..] == EncodeAll(CommitLog(recs, redoRec, nodeToDel))
      ensures CommitLog(recs, redoRec, nodeToDel) != [] ==> log.stream != [] && log.stream[|log.stream| - 1] == NL_COMMIT && log.durable == |log.stream|
      ensures mem[..] == old(mem[..])
    {
      hide LogBuffer.Valid, Mempool.Valid, AtFwd, TxOk, CommitLog, EncodeAll, Encode, RecOk, Slot, LineNo, Col;
      ghost var s0, d0 := log.stream, log.durable;
      LogRedo();
      LogDeletes();
      TxInLog(s0, d0, mem[..], t0, base, recs, done);
      CommitBytes(s0, log.stream, t0, recs, redoRec, nodeToDel, mem.Length);
      log.CurAt();
      FwdApart(txPos, log.CurPos(), log.lines, t0, |log.stream|);
      if log.CurPos().next != txPos.next {
        log.WriteLog([NL_COMMIT]);
        log.FlushLog();
      }
    }

    /**
     * `commitMiniTransaction`: the log reads records, redo records, deletions, commit; then, with that log durable, the redo stores are
     * made and the nodes freed. The bytes logged must not lap the buffer: the commit record is left out when the position has not moved.
     */
    method Commit()
      requires Valid() && Distinct(nodeToDel) && forall p :: p in nodeToDel ==> p in pool.used
      requires |log.stream| + |EncodeAll(redoRec)| + |EncodeAll(Deletion(nodeToDel))| - t0 <= 62 * (log.lines - 1)
      modifies log, log.area, mem, pool
      ensures Idle() && t0 <= |log.stream| && log.stream[t0..] == EncodeAll(CommitLog(recs, redoRec, nodeToDel))
      ensures CommitLog(recs, redoRec, nodeToDel) != [] ==> log.durable == |log.stream|
      ensures mem[..] == DoAll(old(mem[..]), redoRec)
      ensures forall a, k :: 0 <= a < mem.Length && LastSets(redoRec, k, a) ==> mem[a] == redoRec[k].val[a - redoRec[k].addr]
      ensures forall a :: 0 <= a < mem.Length && !SetBySome(redoRec, a) ==> mem[a] == old(mem[a])
      ensures pool.free == Backwards(nodeToDel) + old(pool.free)
      ensures |pool.free| == |nodeToDel| + |old(pool.free)| && forall i :: 0 <= i < |nodeToDel| ==> pool.free[i] == nodeToDel[|nodeToDel| - 1 - i]
      ensures forall p :: p in pool.used <==> p in old(pool.used) && p !in nodeToDel
    {
      hide LogBuffer.Valid, Mempool.Valid, AtFwd, TxOk, PoolOk, EncodeAll, RecOk, DoAll, Backwards, LastSets, SetBySome;
      ghost var m := mem[..];
      LogCommit();
      ApplyRedo();
      FreeNodes();
      Redone(m, redoRec, mem[..]);
      BackwardsAt(nodeToDel);
    }
  }

  /**
   * A crash at any step of a transaction before its commit: of the log at least the durable part survives, holding the first `n`
   * records whole; of the memory, each byte holds one of the values it has had, the stores of the first `upto` records being made
   * or on their way. Parsing the surviving log and undoing what it holds restores every byte that is not a fresh write.
   */
  lemma {:induction false} CrashUndo(stream: seq<byte>, durable: nat, m: seq<byte>, t0: nat, base: seq<byte>, rs: seq<Rec>, done: nat,
                                     upto: nat, n: nat, img: seq<byte>)
    requires TxOk(stream, durable, m, t0, base, rs, done) && upto <= |rs| && WriteAhead(rs, upto, t0, durable)
    requires n <= |rs| && t0 + |EncodeAll(rs[..n])| <= |stream| && (n < |rs| ==> durable < t0 + |EncodeAll(rs[..n + 1])|)
    requires Mixture(base, rs, upto, img)
    ensures ParseForward(stream[t0..t0 + |EncodeAll(rs[..n])|]) == Some(rs[..n])
    ensures forall a :: 0 <= a < |base| && NotFresh(rs, a) ==> UndoAll(img, rs[..n])[a] == base[a]
  {
    hide Encode, EncodeAll, DoAll, UndoAll, Undoable, ParseForward, NotFresh, Held;
    LogPrefix(stream, t0, rs, n);
    forall r | r in rs[..n] ensures RecOk(r) { Covered(rs, r); }
    ForwardAll(rs[..n]);
    forall i | 0 <= i < upto && i < |rs| && Overwrite(rs[i]) ensures i < n {
      if i >= n { Longer(rs, n + 1, i + 1); }
    }
    forall a | 0 <= a < |base| && NotFresh(rs, a) ensures UndoAll(img, rs[..n])[a] == base[a] {
      UndoMixture(base, rs, upto, n, img, a);
    }
  }

  lemma {:induction false} Covered(rs: seq<Rec>, r: Rec)
    requires Running(rs) && r in rs
    ensures RecOk(r)
  {
  }

  lemma {:induction false} LogPrefix(stream: seq<byte>, t0: nat, rs: seq<Rec>, n: nat)
    requires InLog(stream, t0, rs) && n <= |rs|
    ensures t0 + |EncodeAll(rs[..n])| <= |stream| && stream[t0..t0 + |EncodeAll(rs[..n])|] == EncodeAll(rs[..n])
  {
    hide EncodeAll;
    assert rs == rs[..n] + rs[n..];
    EncodeConcat(rs[..n], rs[n..]);
    assert stream[t0..][..|EncodeAll(rs[..n])|] == stream[t0..t0 + |EncodeAll(rs[..n])|];
  }

  lemma {:induction false} Longer(rs: seq<Rec>, i: nat, j: nat)
    requires i <= j <= |rs|
    ensures |EncodeAll(rs[..i])| <= |EncodeAll(rs[..j])|
  {
    assert rs[..j] == rs[..i] + rs[i..j];
    EncodeConcat(rs[..i], rs[i..j]);
  }

  function Deletion(nodes: seq<Addr>): seq<Rec> {
    if nodes == [] then [] else [DelNode(nodes)]
  }

  /** The records of a committed transaction. An empty one leaves nothing in the log. */
  function CommitLog(rs: seq<Rec>, redo: seq<Rec>, nodes: seq<Addr>): seq<Rec> {
    var all := rs + redo + Deletion(nodes); if all == [] then [] else all + [Rec.Commit]
  }

  /** What the log of a committed transaction holds, in order. */
  lemma {:induction false} CommitLogIs(rs: seq<Rec>, redo: seq<Rec>, nodes: seq<Addr>)
    ensures var L, n := CommitLog(rs, redo, nodes), |rs| + |redo|;
      && (L == [] <==> rs == [] && redo == [] && nodes == [])
      && (L != [] ==> |L| == n + (if nodes == [] then 1 else 2) && L[|L| - 1] == Rec.Commit && (nodes != [] ==> L[n] == DelNode(nodes))
                      && (forall i :: 0 <= i < |rs| ==> L[i] == rs[i]) && forall i :: 0 <= i < |redo| ==> L[|rs| + i] == redo[i])
  {
  }

  /** The nodes of the allocations, in their order. */
  lemma {:induction false} AllocsAt(rs: seq<Rec>, i: nat)
    requires i < |rs| && rs[i].AllocNode?
    ensures |Allocs(rs[..i])| < |Allocs(rs)| && Allocs(rs)[|Allocs(rs[..i])|] == rs[i].node
    decreases |rs|
  {
    var before := rs[..|rs| - 1];
    if i < |before| {
      AllocsAt(before, i);
      assert before[..i] == rs[..i];
    }
  }

  /** Forward parsing of a committed transaction's log gives its records back. */
  lemma {:induction false} CommitLogBack(rs: seq<Rec>, redo: seq<Rec>, nodes: seq<Addr>, size: nat)
    requires Running(rs) && (forall r :: r in redo ==> RedoOk(r, size)) && |nodes| < LEN_LIMIT
    ensures ParseForward(EncodeAll(CommitLog(rs, redo, nodes))) == Some(CommitLog(rs, redo, nodes))
  {
    forall r | r in CommitLog(rs, redo, nodes) ensures RecOk(r) { }
    hide CommitLog, ParseForward, EncodeAll, RecOk;
    ForwardAll(CommitLog(rs, redo, nodes));
  }

  /**
   * A crash at any time after the commit record is durable: whatever mixture of the values since the start of the transaction is in
   * memory, parsing the transaction's log and making the stores of its records, first to last, gives the committed memory.
   */
  lemma {:induction false} CommitReplay(base: seq<byte>, rs: seq<Rec>, redo: seq<Rec>, nodes: seq<Addr>, done: nat, img: seq<byte>)
    requires Running(rs) && Logged(base, rs) && (forall r :: r in redo ==> RedoOk(r, |base|)) && |nodes| < LEN_LIMIT
    requires done <= |rs + redo| && Mixture(base, rs + redo, done, img)
    ensures ParseForward(EncodeAll(CommitLog(rs, redo, nodes))) == Some(CommitLog(rs, redo, nodes))
    ensures var m := DoAll(img, CommitLog(rs, redo, nodes));
      && m == DoAll(DoAll(base, rs), redo)
      && (forall a, k :: 0 <= a < |base| && LastSets(rs + redo, k, a) ==> m[a] == (rs + redo)[k].val[a - (rs + redo)[k].addr])
      && (forall a :: 0 <= a < |base| && !SetBySome(rs + redo, a) ==> m[a] == base[a])
  {
    hide DoAll, EncodeAll, ParseForward, Mixture, Undoable, RecOk, CommitLog;
    CommitLogBack(rs, redo, nodes, |base|);
    forall i | 0 <= i < |rs + redo| ensures StoreIn(|base|, (rs + redo)[i]) {
      if i < |rs| { assert RecLogged(DoAll(base, rs[..i]), rs[i]); } else { assert redo[i - |rs|] in redo; }
    }
    RedoMixture(base, rs + redo, done, img);
    DoAllConcat(base, rs, redo);
    OnlyStores(img, rs, redo, nodes);
    forall a, k | 0 <= a < |base| && LastSets(rs + redo, k, a)
      ensures DoAll(base, rs + redo)[a] == (rs + redo)[k].val[a - (rs + redo)[k].addr]
    {
      assert StoreIn(|base|, (rs + redo)[k]);
      LastStored(base, rs + redo, k, a);
    }
    forall a | 0 <= a < |base| && !SetBySome(rs + redo, a) ensures DoAll(base, rs + redo)[a] == base[a] { NeverSet(base, rs + redo, a); }
  }

  /** What the redo stores leave, byte by byte. */
  lemma {:induction false} Redone(m: seq<byte>, redo: seq<Rec>, m': seq<byte>)
    requires (forall r :: r in redo ==> RedoOk(r, |m|)) && m' == DoAll(m, redo)
    ensures forall a, k :: 0 <= a < |m| && LastSets(redo, k, a) ==> m'[a] == redo[k].val[a - redo[k].addr]
    ensures forall a :: 0 <= a < |m| && !SetBySome(redo, a) ==> m'[a] == m[a]
  {
    hide DoAll, RecOk;
    forall a, k | 0 <= a < |m| && LastSets(redo, k, a) ensures m'[a] == redo[k].val[a - redo[k].addr] {
      assert redo[k] in redo;
      LastStored(m, redo, k, a);
    }
    forall a | 0 <= a < |m| && !SetBySome(redo, a) ensures m'[a] == m[a] { NeverSet(m, redo, a); }
  }

  /** The last one first. */
  lemma {:induction false} BackwardsAt(s: seq<Ptr>)
    ensures |Backwards(s)| == |s| && forall i :: 0 <= i < |s| ==> Backwards(s)[i] == s[|s| - 1 - i]
  {
    if s != [] { BackwardsAt(s[..|s| - 1]); }
  }

  lemma {:induction false} NoneBackwards(nodes: seq<Addr>)
    ensures Backwards(nodes[..0]) == []
  {
  }

  lemma {:induction false} BackwardsMore(nodes: seq<Addr>, i: nat)
    requires i < |nodes|
    ensures Backwards(nodes[..i + 1]) == [nodes[i]] + Backwards(nodes[..i])
    ensures forall p :: p in nodes[..i + 1] <==> p in nodes[..i] || p == nodes[i]
  {
    assert nodes[..i + 1][..i] == nodes[..i];
    assert nodes[..i + 1] == nodes[..i] + [nodes[i]];
  }

  /** Deletions and the commit record store nothing. */
  lemma {:induction false} OnlyStores(m: seq<byte>, rs: seq<Rec>, redo: seq<Rec>, nodes: seq<Addr>)
    ensures DoAll(m, CommitLog(rs, redo, nodes)) == DoAll(m, rs + redo)
  {
    var all := rs + redo + Deletion(nodes);
    if all != [] {
      DoAllConcat(m, all, [Rec.Commit]);
      NoStoreAt(DoAll(m, all), Rec.Commit);
    }
    if nodes == [] {
      assert all == rs + redo;
    } else {
      DoAllConcat(m, rs + redo, Deletion(nodes));
      NoStoreAt(DoAll(m, rs + redo), DelNode(nodes));
    }
  }

  lemma {:induction false} NoStoreAt(m: seq<byte>, r: Rec)
    requires r.Commit? || r.DelNode?
    ensures DoAll(m, [r]) == m
  {
    assert [r][..0] == [];
  }

  lemma {:induction false} TxInLog(stream: seq<byte>, d: nat, m: seq<byte>, t0: nat, base: seq<byte>, rs: seq<Rec>, done: nat)
    requires TxOk(stream, d, m, t0, base, rs, done)
    ensures InLog(stream, t0, rs) && Running(rs)
  {
  }

  lemma {:induction false} CommitBytes(s0: seq<byte>, s: seq<byte>, t0: nat, rs: seq<Rec>, redo: seq<Rec>, nodes: seq<Addr>, size: nat)
    requires InLog(s0, t0, rs) && Running(rs) && (forall r :: r in redo ==> RedoOk(r, size)) && |nodes| < LEN_LIMIT
    requires s == s0 + EncodeAll(redo) + if nodes == [] then [] else Encode(DelNode(nodes))
    ensures |s| == |s0| + |EncodeAll(redo)| + |EncodeAll(Deletion(nodes))| >= t0
    ensures |s| == t0 ==> s[t0..] == EncodeAll(CommitLog(rs, redo, nodes)) && CommitLog(rs, redo, nodes) == []
    ensures |s| > t0 ==> (s + [NL_COMMIT])[t0..] == EncodeAll(CommitLog(rs, redo, nodes))
  {
    var all := rs + redo + Deletion(nodes);
    CommitParts(s0, s, t0, rs, redo, nodes);
    EncodeConcat(all, [Rec.Commit]);
    assert EncodeAll([Rec.Commit]) == [NL_COMMIT] + EncodeAll([]);
    SliceAppend(s, [NL_COMMIT], t0);
    if all != [] {
      AllOk(rs, redo, nodes, size);
      RecShape(all[0]);
    }
    hide Encode, RecOk;
  }

  lemma {:induction false} AllOk(rs: seq<Rec>, redo: seq<Rec>, nodes: seq<Addr>, size: nat)
    requires Running(rs) && (forall r :: r in redo ==> RedoOk(r, size)) && |nodes| < LEN_LIMIT && rs + redo + Deletion(nodes) != []
    ensures RecOk((rs + redo + Deletion(nodes))[0])
  {
    var r := (rs + redo + Deletion(nodes))[0];
    assert r in rs || r in redo || r in Deletion(nodes);
  }

  lemma {:induction false} CommitParts(s0: seq<byte>, s: seq<byte>, t0: nat, rs: seq<Rec>, redo: seq<Rec>, nodes: seq<Addr>)
    requires InLog(s0, t0, rs) && s == s0 + EncodeAll(redo) + if nodes == [] then [] else Encode(DelNode(nodes))
    ensures |s| == |s0| + |EncodeAll(redo)| + |EncodeAll(Deletion(nodes))| >= t0 && s[t0..] == EncodeAll(rs + redo + Deletion(nodes))
  {
    var a, b, c := EncodeAll(rs), EncodeAll(redo), EncodeAll(Deletion(nodes));
    EncodeConcat(rs, redo);
    EncodeConcat(rs + redo, Deletion(nodes));
    assert [DelNode(nodes)][1..] == [];
    assert c == if nodes == [] then [] else Encode(DelNode(nodes));
    SliceAppend(s0, b, t0);
    SliceAppend(s0 + b, c, t0);
    hide EncodeAll, Encode;
  }

  function Backwards(s: seq<Ptr>): seq<Ptr> {
    if s == [] then [] else [s[|s| - 1]] + Backwards(s[..|s| - 1])
  }

  lemma {:induction false} EncodedSome(s: seq<byte>, rs: seq<Rec>, i: nat)
    requires i <= |rs|
    ensures i == 0 ==> s + EncodeAll(rs[..i]) == s
    ensures i > 0 ==> s + EncodeAll(rs[..i]) == s + EncodeAll(rs[..i - 1]) + Encode(rs[i - 1])
  {
    hide EncodeAll, Encode;
    if i > 0 {
      EncodeLast(rs[..i]);
      assert rs[..i][..i - 1] == rs[..i - 1];
    } else {
      EncodeNone();
      assert rs[..0] == [];
    }
  }

  lemma {:induction false} RedoPieces(r: Rec)
    requires r.RedoVchar?
    ensures Encode(r) == ([Tag(r)] + LE(r.addr, 8) + LE(|r.val|, 4)) + [] + r.val + (LE(|r.val|, 4) + [Tag(r)])
  {
    var t, a, n := [Tag(r)], LE(r.addr, 8), LE(|r.val|, 4);
    assert a + n + [] == a + n;
    assert Body(r) == a + n + [] + r.val + n;
    Reassociate(t, a, n, [], r.val);
  }

  lemma {:induction false} DeletePieces(nodes: seq<Addr>)
    ensures Encode(DelNode(nodes)) == ([NL_DELNODE] + LE(|nodes|, 4)) + [] + NodeBytes(nodes) + (LE(|nodes|, 4) + [NL_DELNODE])
  {
    var t, n, b := [NL_DELNODE], LE(|nodes|, 4), NodeBytes(nodes);
    assert n + [] + [] == n;
    Reassociate(t, n, [], [], b + n);
    assert t + (n + b + n) + t == (t + n) + b + (n + t);
    assert (t + n) + [] == t + n;
  }

  /** The nodes among the allocations that came from the end of the pool. */
  function Bumped(was: seq<Ptr>, rs: seq<Rec>): seq<Ptr> {
    Allocs(rs)[Min(|was|, |Allocs(rs)|)..]
  }

  lemma {:induction false} BumpedAt(was: seq<Ptr>, rs: seq<Rec>)
    ensures |Bumped(was, rs)| == if |Allocs(rs)| > |was| then |Allocs(rs)| - |was| else 0
    ensures forall i :: 0 <= i < |Bumped(was, rs)| ==> Bumped(was, rs)[i] == Allocs(rs)[|was| + i]
  {
  }

  /** Record `k` is the first overwrite that covers the address. */
  predicate FirstOverwrite(rs: seq<Rec>, k: int, a: int) {
    0 <= k < |rs| && Overwrite(rs[k]) && Covers(rs[k], a) && LogUndo.Untouched(rs, k, a)
  }

  lemma {:induction false} TxFacts(stream: seq<byte>, d: nat, m: seq<byte>, t0: nat, base: seq<byte>, rs: seq<Rec>)
    requires TxOk(stream, d, m, t0, base, rs, |rs|)
    ensures Running(rs) && Logged(base, rs) && m == DoAll(base, rs)
  {
    assert rs[..|rs|] == rs;
  }

  /** What undoing all records gives at each address. */
  lemma {:induction false} Restored(base: seq<byte>, rs: seq<Rec>, m: seq<byte>)
    requires Running(rs) && Logged(base, rs) && m == UndoAll(DoAll(base, rs), rs)
    ensures forall a :: 0 <= a < |base| && NotFresh(rs, a) ==> m[a] == base[a]
    ensures forall a, k :: 0 <= a < |base| && FirstOverwrite(rs, k, a) ==> m[a] == DoAll(base, rs[..k])[a]
  {
    hide DoAll, UndoAll, NotFresh;
    forall a | 0 <= a < |base| && NotFresh(rs, a) ensures m[a] == base[a] { UndoRestores(base, rs, a); }
    forall a, k | 0 <= a < |base| && FirstOverwrite(rs, k, a) ensures m[a] == DoAll(base, rs[..k])[a] {
      assert rs[0..] == rs;
      UndoFirst(base, DoAll(base, rs), rs, k, 0, a);
    }
  }

  /** Freeing the allocated nodes, last one first, restores the free list and puts the others behind it in allocation order. */
  lemma {:induction false} FreeList(was: seq<Ptr>, rs: seq<Rec>, free: seq<Ptr>, used: set<Ptr>)
    requires PoolOk(was, rs, free, used)
    ensures Allocs(rs) + free == was + Bumped(was, rs)
  {
    var given := Allocs(rs);
    var k := Min(|was|, |given|);
    assert given == given[..k] + given[k..] && was == was[..k] + was[k..];
    if k < |was| { assert given[k..] == []; } else { assert free == []; }
  }

  /** The state of the abort loop: the records from the `i`-th on are undone. */
  ghost predicate UndoInv(lines: nat, stream: seq<byte>, t0: nat, base: seq<byte>, rs: seq<Rec>, i: nat, pos: LogPos,
                          m1: seq<byte>, m: seq<byte>, free1: seq<Ptr>, free: seq<Ptr>, used: set<Ptr>)
    requires lines > 0
  {
    && AbortFacts(stream, t0, base, rs) && i <= |rs| && AtRev(pos, lines, t0 + |EncodeAll(rs[..i])|)
    && Undone(rs, i, m1, m, free1, free) && NodesLeft(rs, i, used)
  }

  /** What the abort loop uses of the transaction. */
  ghost predicate AbortFacts(stream: seq<byte>, t0: nat, base: seq<byte>, rs: seq<Rec>) {
    InLog(stream, t0, rs) && Running(rs) && Logged(base, rs)
  }

  /** The records from the `i`-th on are undone. */
  ghost predicate Undone(rs: seq<Rec>, i: nat, m1: seq<byte>, m: seq<byte>, free1: seq<Ptr>, free: seq<Ptr>)
    requires i <= |rs|
  {
    m == UndoAll(m1, rs[i..]) && Allocs(rs[..i]) + free == Allocs(rs) + free1
  }

  predicate NodesLeft(rs: seq<Rec>, i: nat, used: set<Ptr>)
    requires i <= |rs|
  {
    Distinct(Allocs(rs[..i])) && forall p :: p in Allocs(rs[..i]) ==> p in used
  }

  lemma {:induction false} UndoStart(stream: seq<byte>, d: nat, m: seq<byte>, t0: nat, base: seq<byte>, rs: seq<Rec>,
                                     was: seq<Ptr>, free: seq<Ptr>, used: set<Ptr>)
    requires TxOk(stream, d, m, t0, base, rs, |rs|) && PoolOk(was, rs, free, used)
    ensures AbortFacts(stream, t0, base, rs) && |stream| == t0 + |EncodeAll(rs[..|rs|])| && |base| == |m|
    ensures Undone(rs, |rs|, m, m, free, free) && NodesLeft(rs, |rs|, used)
  {
    assert rs[..|rs|] == rs && rs[|rs|..] == [];
  }

  lemma {:induction false} EncodeGrows(rs: seq<Rec>, i: nat)
    requires 0 < i <= |rs| && Running(rs)
    ensures EncodeAll(rs[..i]) == EncodeAll(rs[..i - 1]) + Encode(rs[i - 1]) && |Encode(rs[i - 1])| == Length(rs[i - 1]) > 0
  {
    hide EncodeAll, Encode, Length;
    EncodeLast(rs[..i]);
    assert rs[..i][..i - 1] == rs[..i - 1];
    RecShape(rs[i - 1]);
  }

  /** Where record `i - 1` lies in the log. */
  lemma {:induction false} RecordPlace(stream: seq<byte>, t0: nat, rs: seq<Rec>, i: nat)
    requires InLog(stream, t0, rs) && Running(rs) && 0 < i <= |rs|
    ensures var at := t0 + |EncodeAll(rs[..i])|; RecBefore(stream, at, rs[i - 1]) && at - Length(rs[i - 1]) == t0 + |EncodeAll(rs[..i - 1])|
  {
    hide Encode, EncodeAll, Undoable, Length, RecBefore;
    var a, e, b := EncodeAll(rs[..i - 1]), Encode(rs[i - 1]), EncodeAll(rs[i..]);
    EncodeGrows(rs, i);
    EncodeConcat(rs[..i], rs[i..]);
    assert rs == rs[..i] + rs[i..];
    MiddleAt(stream, t0, a, e, b);
    EndsAt(stream, t0 + |a|, rs[i - 1]);
  }

  lemma {:induction false} EndsAt(stream: seq<byte>, p: nat, r: Rec)
    requires Undoable(r) && |Encode(r)| == Length(r) && p + |Encode(r)| <= |stream| && stream[p..p + |Encode(r)|] == Encode(r)
    ensures RecBefore(stream, p + Length(r), r)
  {
  }

  lemma {:induction false} MiddleAt(stream: seq<byte>, t0: nat, a: seq<byte>, e: seq<byte>, b: seq<byte>)
    requires t0 <= |stream| && stream[t0..] == a + e + b
    ensures t0 + |a| + |e| <= |stream| && stream[t0 + |a|..t0 + |a| + |e|] == e
  {
    assert stream[t0..][|a|..|a| + |e|] == e;
    SubSlice(stream, t0, |stream|, |a|, |e|);
  }

  lemma {:induction false} RoundReady(lines: nat, stream: seq<byte>, t0: nat, base: seq<byte>, rs: seq<Rec>, i: nat, at: nat)
    requires AbortFacts(stream, t0, base, rs) && i <= |rs| && at == t0 + |EncodeAll(rs[..i])| && lines > 0
    requires RevNext(lines, at) != RevNext(lines, t0) && |stream| - t0 <= 62 * (lines - 1)
    ensures i > 0 && RecBefore(stream, at, rs[i - 1]) && at - Length(rs[i - 1]) == t0 + |EncodeAll(rs[..i - 1])|
    ensures RevReadable(lines, |stream|, true, at, Length(rs[i - 1]))
    ensures Overwrite(rs[i - 1]) ==> rs[i - 1].addr + |rs[i - 1].was| <= |base|
  {
    hide InLog, Encode, EncodeAll, Undoable, Length, LineNo, Col, RevNext, DoAll, Running;
    assert rs[..0] == [];
    NoBytes();
    RecordPlace(stream, t0, rs, i);
    assert RecLogged(DoAll(base, rs[..i - 1]), rs[i - 1]);
    assert Overwrite(rs[i - 1]) ==> rs[i - 1].addr + |rs[i - 1].was| <= |base|;
    assert at <= |stream|;
    WithinLap(t0, |stream|, lines);
  }

  lemma {:induction false} NoBytes()
    ensures EncodeAll([]) == []
  {
  }

  lemma {:induction false} WithinLap(t0: nat, t: nat, lines: nat)
    requires t0 <= t && t - t0 <= 62 * (lines - 1)
    ensures LineNo(t) - lines < LineNo(t0) && LineNo(t - 1) - LineNo(t0 - 1) < lines
  {
  }

  lemma {:induction false} AllocsLast(rs: seq<Rec>, i: nat)
    requires 0 < i <= |rs|
    ensures Allocs(rs[..i]) == Allocs(rs[..i - 1]) + if rs[i - 1].AllocNode? then [rs[i - 1].node] else []
  {
    assert rs[..i][..i - 1] == rs[..i - 1];
  }

  lemma {:induction false} NextAlloc(rs: seq<Rec>, i: nat, used: set<Ptr>)
    requires 0 < i <= |rs| && NodesLeft(rs, i, used)
    ensures rs[i - 1].AllocNode? ==> rs[i - 1].node in used
  {
    AllocsLast(rs, i);
    var a := Allocs(rs[..i]);
    if rs[i - 1].AllocNode? { assert a[|a| - 1] == rs[i - 1].node; }
  }

  lemma {:induction false} RoundDone(rs: seq<Rec>, i: nat, m1: seq<byte>, m: seq<byte>, m': seq<byte>, free1: seq<Ptr>, free: seq<Ptr>, free': seq<Ptr>,
                                     used: set<Ptr>, used': set<Ptr>)
    requires 0 < i <= |rs| && Undone(rs, i, m1, m, free1, free) && NodesLeft(rs, i, used)
    requires m' == Undo(m, rs[i - 1]) && free' == (if rs[i - 1].AllocNode? then [rs[i - 1].node] else []) + free
    requires used' == used - if rs[i - 1].AllocNode? then {rs[i - 1].node} else {}
    ensures Undone(rs, i - 1, m1, m', free1, free') && NodesLeft(rs, i - 1, used')
  {
    var tail := rs[i - 1..];
    assert tail[0] == rs[i - 1] && tail[1..] == rs[i..];
    AllocsLast(rs, i);
    var a, b := Allocs(rs[..i - 1]), Allocs(rs[..i]);
    hide Allocs, Undo;
    assert a + free' == b + free;
    forall k | 0 <= k < |a| ensures a[k] in used' {
      assert b[k] == a[k] && b[k] in used;
      if rs[i - 1].AllocNode? { assert b[|b| - 1] == rs[i - 1].node && b[k] != b[|b| - 1]; }
    }
    forall j, k | 0 <= j < k < |a| ensures a[j] != a[k] { assert b[j] == a[j] && b[k] == a[k]; }
  }

  lemma {:induction false} AllUndone(lines: nat, stream: seq<byte>, t0: nat, base: seq<byte>, rs: seq<Rec>, i: nat, pos: LogPos,
                                     m1: seq<byte>, m: seq<byte>, free1: seq<Ptr>, free: seq<Ptr>, used: set<Ptr>)
    requires lines > 0 && UndoInv(lines, stream, t0, base, rs, i, pos, m1, m, free1, free, used)
    requires pos.next == RevNext(lines, t0) && |stream| - t0 <= 62 * (lines - 1)
    ensures m == UndoAll(m1, rs) && free == Allocs(rs) + free1
  {
    hide AbortFacts, AtRev, RevNext, Slot, LineNo, Col, NodesLeft, EncodeAll, Allocs, UndoAll;
    var at := t0 + |EncodeAll(rs[..i])|;
    RevNextOf(pos, lines, at);
    if i > 0 {
      AbortPlace(stream, t0, base, rs, i);
      WithinLap(t0, at, lines);
      RevApart(lines, t0, at);
    }
    assert rs[0..] == rs && rs[..0] == [];
    NoAllocs(free);
  }

  lemma {:induction false} NoAllocs(free: seq<Ptr>)
    ensures Allocs([]) + free == free
  {
  }

  lemma {:induction false} AbortPlace(stream: seq<byte>, t0: nat, base: seq<byte>, rs: seq<Rec>, i: nat)
    requires AbortFacts(stream, t0, base, rs) && 0 < i <= |rs|
    ensures t0 < t0 + |EncodeAll(rs[..i])| <= |stream|
  {
    hide Encode, EncodeAll, Undoable;
    RecordPlace(stream, t0, rs, i);
    EncodeGrows(rs, i);
  }

  /** The tag tells which kind of record it is. */
  lemma {:induction false} Kinds(r: Rec)
    requires Undoable(r)
    ensures Fresh(r) <==> SizeOf(Tag(r), NL_NEW1B) > 0 || Tag(r) == NL_NEWVCHAR
    ensures r.Write? <==> SizeOf(Tag(r), NL_WRITE1B) > 0
    ensures r.WriteVchar? <==> Tag(r) == NL_WRITEVCHAR
    ensures r.AllocNode? <==> Tag(r) == NL_ALLOCNODE
  {
    if r.New? || r.Write? { SizedTags(|r.val|); }
  }

  lemma {:induction false} OneReadable(lines: nat, size: nat, flushed: bool, t: nat, len: nat)
    requires RevReadable(lines, size, flushed, t, len) && len > 0
    ensures RevReadable(lines, size, flushed, t, 1)
  {
  }

  lemma {:induction false} WriteParts(r: Rec)
    requires RecOk(r) && r.Write?
    ensures |Encode(r)| == 2 * |r.val| + 10 && AddrOf(Encode(r)[1..9]) == r.addr && Encode(r)[9..9 + |r.val|] == r.was
  {
    RecShape(r);
  }

  lemma {:induction false} AllocParts(r: Rec)
    requires RecOk(r) && r.AllocNode?
    ensures |Encode(r)| == 10 && AddrOf(Encode(r)[1..9]) == r.node
  {
    RecShape(r);
  }

  lemma {:induction false} VcharParts(stream: seq<byte>, at: nat, r: Rec)
    requires RecBefore(stream, at, r) && r.WriteVchar?
    ensures at >= 2 * |r.val| + 18
    ensures var buf := stream[at - 5 - (2 * |r.val| + 13)..at - 5]; AddrOf(buf[1..9]) == r.addr && buf[13..13 + |r.val|] == r.was
  {
    hide Encode, FieldsAt, Tag, AddrOf;
    var e, l, n := Encode(r), Length(r), |r.val|;
    RecShape(r);
    var buf := stream[at - 5 - (2 * n + 13)..at - 5];
    VcharFields(e, r);
    assert l == 2 * n + 18 && stream[at - l..at] == e;
    SubSlice(stream, at - l, at, 1, 8);
    SubSlice(stream, at - l, at - 5, 1, 8);
    SubSlice(stream, at - l, at, 13, n);
    SubSlice(stream, at - l, at - 5, 13, n);
  }

  lemma {:induction false} VcharFields(e: seq<byte>, r: Rec)
    requires RecOk(r) && r.WriteVchar? && |e| == Length(r) && FieldsAt(e, 0, r)
    ensures AddrOf(e[1..9]) == r.addr && e[13..13 + |r.val|] == r.was
  {
  }

  lemma {:induction false} OneByte(a: seq<byte>, b: seq<byte>, i: int, j: int)
    requires 0 < i <= |a| && 0 < j <= |b| && a[i - 1..i] == b[j - 1..j]
    ensures a[i - 1] == b[j - 1]
  {
    assert a[i - 1..i][0] == a[i - 1] && b[j - 1..j][0] == b[j - 1];
  }

  /** The record's bytes end at stream position `at`. */
  predicate RecBefore(stream: seq<byte>, at: nat, r: Rec) {
    Undoable(r) && Length(r) <= at <= |stream| && stream[at - Length(r)..at] == Encode(r)
  }

  lemma {:induction false} RecShape(r: Rec)
    requires RecOk(r)
    ensures |Encode(r)| == Length(r) > 0 && FieldsAt(Encode(r), 0, r)
  {
    EncodedFields(r, [], []);
    EmptyFront(Encode(r), []);
    hide Encode, FieldsAt;
    assert Encode(r) + [] == Encode(r);
  }

  lemma {:induction false} LastIsTag(bs: seq<byte>, r: Rec)
    requires Undoable(r) && |bs| == Length(r) && FieldsAt(bs, 0, r)
    ensures bs[|bs| - 1] == Tag(r)
    ensures r.NewVchar? || r.WriteVchar? ==> |bs| >= 18 && UnLE(bs[|bs| - 5..|bs| - 1]) == |r.val|
  {
    hide UnLE, AddrOf, Tag;
  }

  /** The byte before a backward position is the tag of the record that ends there. */
  lemma {:induction false} TagBefore(stream: seq<byte>, at: nat, r: Rec)
    requires RecBefore(stream, at, r)
    ensures |Encode(r)| == Length(r) > 0 && stream[at - 1] == Tag(r)
    ensures r.New? || r.Write? ==> SizeOf(Tag(r), if r.New? then NL_NEW1B else NL_WRITE1B) == |r.val|
  {
    var e, l := Encode(r), Length(r);
    RecShape(r);
    LastIsTag(e, r);
    SameLast(e, stream, at);
    if r.New? || r.Write? { SizedTags(|r.val|); }
  }

  lemma {:induction false} SameLast(e: seq<byte>, stream: seq<byte>, at: nat)
    requires 0 < |e| <= at <= |stream| && stream[at - |e|..at] == e
    ensures stream[at - 1] == e[|e| - 1]
  {
  }

  /** A backward read of the last five bytes of a variable-length record finds its length. */
  lemma {:induction false} LenBefore(stream: seq<byte>, at: nat, r: Rec)
    requires RecBefore(stream, at, r) && (r.NewVchar? || r.WriteVchar?)
    ensures at >= 5 && UnLE(stream[at - 5..at][..4]) == |r.val|
  {
    hide Encode, RecOk, FieldsAt, Tag, UnLE;
    var e, l := Encode(r), Length(r);
    RecShape(r);
    LastIsTag(e, r);
    SliceOf(e, stream, at, at - 5, l - 5, l - 1);
  }

  lemma {:induction false} SliceOf(e: seq<byte>, stream: seq<byte>, at: nat, p: nat, i: nat, j: nat)
    requires |e| <= at <= |stream| && stream[at - |e|..at] == e && i <= j <= |e| && p == at - |e| + i
    ensures stream[p..at][..j - i] == e[i..j]
  {
    SubSlice(stream, at - |e|, at, i, j - i);
    SubSlice(stream, at - |e| + i, at, 0, j - i);
  }

  lemma {:induction false} AheadMore(rs: seq<Rec>, done: nat, t0: nat, d: nat, d': nat)
    requires WriteAhead(rs, done, t0, d) && d <= d'
    ensures WriteAhead(rs, done, t0, d')
  {
  }

  lemma {:induction false} FourPieces(s: seq<byte>, a: seq<byte>, b: seq<byte>, c: seq<byte>, d: seq<byte>)
    ensures s + a + b + c + d == s + (a + b + c + d) && s + a + [] == s + a
  {
    FourPieces2(s, a + b, c, d);
    assert s + a + b == s + (a + b);
  }

  lemma {:induction false} FourPieces2(s: seq<byte>, b: seq<byte>, c: seq<byte>, d: seq<byte>)
    ensures s + b + c + d == s + (b + c + d)
  {
    assert s + b + c == s + (b + c);
    assert s + (b + c) + d == s + (b + c + d);
  }

  lemma {:induction false} VcharPieces(r: Rec)
    requires r.NewVchar? || r.WriteVchar?
    ensures Encode(r) == ([Tag(r)] + LE(r.addr, 8) + LE(|r.val|, 4)) + (if r.WriteVchar? then r.was else []) + r.val + (LE(|r.val|, 4) + [Tag(r)])
  {
    var t, a, n, was := [Tag(r)], LE(r.addr, 8), LE(|r.val|, 4), if r.WriteVchar? then r.was else [];
    assert a + n + [] == a + n;
    assert Body(r) == a + n + was + r.val + n;
    Reassociate(t, a, n, was, r.val);
  }

  lemma {:induction false} Reassociate(t: seq<byte>, a: seq<byte>, n: seq<byte>, w: seq<byte>, v: seq<byte>)
    ensures t + (a + n + w + v + n) + t == (t + a + n) + w + v + (n + t)
  {
    FourPieces(t, a + n, w, v, n);
    assert t + (a + n) == t + a + n;
    assert (t + a + n) + w + v + n + t == (t + a + n) + w + v + (n + t);
  }

  lemma {:induction false} NodeRecord(r: Rec, m: seq<byte>)
    requires r.AllocNode?
    ensures Undoable(r) && RecLogged(m, r)
  {
  }

  lemma {:induction false} OneAlloc(was: seq<Ptr>, rs: seq<Rec>, r: Rec, free: seq<Ptr>, used: set<Ptr>, free': seq<Ptr>, used': set<Ptr>)
    requires PoolOk(was, rs, free, used) && r.AllocNode? && r.node !in used && used' == used + {r.node}
    requires if free != [] then r.node == free[0] && free' == free[1..] else free' == []
    ensures PoolOk(was, rs + [r], free', used')
  {
    var given, given' := Allocs(rs), Allocs(rs + [r]);
    assert (rs + [r])[..|rs|] == rs;
    assert given' == given + [r.node];
    var k, k' := Min(|was|, |given|), Min(|was|, |given'|);
    if k < |was| {
      assert was[k..][0] == was[k] && was[k..][1..] == was[k + 1..];
      assert given'[..k'] == given[..k] + [r.node];
      assert was[..k'] == was[..k] + [was[k]];
    } else {
      assert given'[..k'] == given[..k];
    }
  }

  /** A record without a store. */
  lemma {:induction false} NoStore(stream: seq<byte>, durable: nat, m: seq<byte>, t0: nat, base: seq<byte>, rs: seq<Rec>, done: nat)
    requires TxOk(stream, durable, m, t0, base, rs, done) && done + 1 == |rs| && rs[done].AllocNode?
    ensures TxOk(stream, durable, m, t0, base, rs, done + 1)
  {
    assert rs[..done + 1] == rs && rs[..|rs| - 1] == rs[..done];
  }

  /** The store of the last record. */
  lemma {:induction false} Performed(stream: seq<byte>, durable: nat, m: seq<byte>, t0: nat, base: seq<byte>, rs: seq<Rec>, done: nat)
    requires TxOk(stream, durable, m, t0, base, rs, done) && done + 1 == |rs| && (Overwrite(rs[done]) ==> durable == |stream|)
    ensures TxOk(stream, durable, Do(m, rs[done]), t0, base, rs, done + 1) && RecLogged(m, rs[done])
  {
    assert rs[..done + 1] == rs && rs[..|rs| - 1] == rs[..done];
    assert RecLogged(DoAll(base, rs[..done]), rs[done]);
  }

  lemma {:induction false} TxStart(stream: seq<byte>, durable: nat, m: seq<byte>, free: seq<Ptr>, used: set<Ptr>)
    ensures TxOk(stream, durable, m, |stream|, m, [], 0) && PoolOk(free, [], free, used)
  {
  }

  /** A record more in the log: its store is still to come. */
  lemma {:induction false} Recorded(rs: seq<Rec>, r: Rec, base: seq<byte>, t0: nat, m: seq<byte>, stream: seq<byte>, stream': seq<byte>, d: nat, d': nat)
    requires TxOk(stream, d, m, t0, base, rs, |rs|) && stream' == stream + Encode(r) && Undoable(r) && RecLogged(m, r) && d <= d'
    ensures TxOk(stream', d', m, t0, base, rs + [r], |rs|)
  {
    var rs' := rs + [r];
    assert rs'[..|rs|] == rs && rs[..|rs|] == rs;
    RecordedBytes(rs, r, t0, stream, stream');
    RecordedLogged(rs, r, base);
    RecordedAhead(rs, r, t0, d, d');
    hide InLog, Logged, WriteAhead;
    forall i | 0 <= i < |rs'| ensures Undoable(rs'[i]) { if i < |rs| { assert rs'[i] == rs[i]; } }
  }

  lemma {:induction false} RecordedBytes(rs: seq<Rec>, r: Rec, t0: nat, stream: seq<byte>, stream': seq<byte>)
    requires InLog(stream, t0, rs) && stream' == stream + Encode(r)
    ensures InLog(stream', t0, rs + [r])
  {
    var rs' := rs + [r];
    EncodeLast(rs');
    assert rs'[..|rs|] == rs;
    SliceAppend(stream, Encode(r), t0);
    hide EncodeAll, Encode;
  }

  lemma {:induction false} SliceAppend(a: seq<byte>, b: seq<byte>, i: nat)
    requires i <= |a|
    ensures (a + b)[i..] == a[i..] + b
  {
  }

  lemma {:induction false} RecordedLogged(rs: seq<Rec>, r: Rec, base: seq<byte>)
    requires Logged(base, rs) && RecLogged(DoAll(base, rs), r)
    ensures Logged(base, rs + [r])
  {
    var rs' := rs + [r];
    forall i | 0 <= i < |rs'| ensures RecLogged(DoAll(base, rs'[..i]), rs'[i]) {
      assert rs'[..i] == rs[..i];
      if i == |rs| { assert rs[..i] == rs; }
    }
  }

  lemma {:induction false} RecordedAhead(rs: seq<Rec>, r: Rec, t0: nat, d: nat, d': nat)
    requires WriteAhead(rs, |rs|, t0, d) && d <= d'
    ensures WriteAhead(rs + [r], |rs|, t0, d')
  {
    var rs' := rs + [r];
    forall i | 0 <= i < |rs| && Overwrite(rs'[i]) ensures t0 + |EncodeAll(rs'[..i + 1])| <= d' {
      assert rs'[..i + 1] == rs[..i + 1] && rs'[i] == rs[i];
    }
  }

  lemma {:induction false} NoAlloc(was: seq<Ptr>, rs: seq<Rec>, r: Rec, free: seq<Ptr>, used: set<Ptr>)
    requires PoolOk(was, rs, free, used) && !r.AllocNode?
    ensures PoolOk(was, rs + [r], free, used)
  {
    assert (rs + [r])[..|rs|] == rs;
    assert Allocs(rs + [r]) == Allocs(rs) + [];
  }
}
