/** Operations of the Lua runtime facade on its memory: errors, module registration, destruction. */
module LuaFacade {
  import opened Common
  import opened LuaAllocator
  import opened LuaRuntime

  class Runtime {
    const allocator: Allocator
    const record: nat
    /** Sizes of the two C records. */
    const recordBytes: nat
    const chunkBytes: nat
    var lastError: Option<nat>
    var chunks: seq<Chunk>
    /** Blocks Lua owns. */
    var lua: set<nat>

    ghost function Ledger(extra: set<nat>): Book
      reads this
    {
      Book(record, recordBytes, chunkBytes, lastError, chunks, lua, extra)
    }

    function Blocks(): seq<Block>
      reads this, allocator, allocator.heap
    {
      allocator.heap.blocks
    }

    /** Whether `n` more bytes stay within the cap. */
    predicate HasRoom(n: nat)
      reads this, allocator
    {
      Within(allocator, allocator.used, n)
    }

    /** The next `requests` requests for memory are granted and `n` more bytes stay within the cap. */
    predicate CanTake(requests: nat, n: nat)
      reads this, allocator, allocator.heap
    {
      Willing(allocator.heap.answers, requests) && HasRoom(n)
    }

    /** Bytes the error text takes. */
    function ErrorBytes(): nat
      reads this, allocator, allocator.heap
    {
      if lastError.Some? && allocator.heap.IsLive(lastError.value) then |Blocks()[lastError.value].bytes| else 0
    }

    /** The error text is `text`. */
    predicate Says(text: Text)
      reads this, allocator, allocator.heap
    {
      lastError.Some? && allocator.heap.IsLive(lastError.value) && Blocks()[lastError.value].bytes == text + [0]
    }

    /** The count is exact and every live block has one owner, `extra` belonging to the call in progress. */
    ghost predicate Owns(extra: set<nat>)
      reads this, allocator, allocator.heap
    {
      allocator.Valid() && chunkBytes > 0 && Owned(Blocks(), Ledger(extra))
    }

    constructor (allocator: Allocator, record: nat, recordBytes: nat, chunkBytes: nat)
      requires allocator.Valid() && LiveSet(allocator.heap.blocks) == {record}
      requires HasSize(allocator.heap.blocks, record, recordBytes) && chunkBytes > 0
      ensures Owns({}) && chunks == [] && lastError == None && lua == {} && this.allocator == allocator
    {
      this.allocator, this.record, this.recordBytes, this.chunkBytes := allocator, record, recordBytes, chunkBytes;
      lastError, chunks, lua := None, [], {};
    }

    /** A fresh block for the call in progress. */
    method Alloc(n: nat, ghost extra: set<nat>) returns (p: Option<nat>)
      requires Owns(extra)
      modifies allocator, allocator.heap
      ensures Owns(extra + AsSet(p)) && extra !! AsSet(p) && Same(old(Blocks()), Blocks(), extra)
      ensures p.Some? ==> HasSize(Blocks(), p.value, if n == 0 then 1 else n)
      ensures p.Some? <==> old(CanTake(1, if n == 0 then 1 else n))
      ensures p.Some? ==> Spent(allocator, old(allocator.used), old(allocator.heap.answers), if n == 0 then 1 else n)
      ensures p.None? ==> Denied(allocator, old(allocator.used), old(allocator.heap.answers), if n == 0 then 1 else n)
    {
      hide Owned;
      ghost var was := Blocks();
      ExtraIsLive(was, Ledger(extra));
      WillingOnce(allocator.heap.answers);
      p := allocator.Alloc(n);
      if p.Some? {
        assert Blocks() == was + [Blocks()[p.value]];
        OwnedAppend(was, Ledger(extra), Blocks()[p.value]);
      } else {
        assert extra + {} == extra;
      }
    }

    /** Frees a block of the call in progress; a null pointer is ignored. */
    method Release(p: Option<nat>, n: nat, ghost extra: set<nat>)
      requires Owns(extra) && (p.Some? ==> p.value in extra && HasSize(Blocks(), p.value, n))
      modifies allocator, allocator.heap
      ensures Owns(extra - AsSet(p)) && Same(old(Blocks()), Blocks(), extra - AsSet(p))
      ensures |Blocks()| == |old(Blocks())| && allocator.heap.answers == old(allocator.heap.answers)
      ensures allocator.used == old(allocator.used) - if p.None? then 0 else n
    {
      hide Owned;
      ExtraIsLive(Blocks(), Ledger(extra));
      if p.Some? {
        OwnedFree(Blocks(), Ledger(extra), p.value);
      } else {
        assert extra - {} == extra;
      }
      allocator.Release(p, n);
    }

    method Fill(p: nat, bytes: seq<Byte>, ghost extra: set<nat>)
      requires Owns(extra) && p in extra && HasSize(Blocks(), p, |bytes|)
      modifies allocator.heap
      ensures Owns(extra) && Blocks() == old(Blocks())[p := Live(bytes)]
      ensures allocator.heap.answers == old(allocator.heap.answers)
    {
      hide Owned;
      TotalUpdate(Blocks(), p, Live(bytes));
      OwnedWrite(Blocks(), Ledger(extra), p, bytes);
      allocator.heap.Store(p, bytes);
    }

    /** A copy of a text in a fresh block. */
    method Duplicate(text: Text, ghost extra: set<nat>) returns (p: Option<nat>)
      requires Owns(extra)
      modifies allocator, allocator.heap
      ensures Owns(extra + AsSet(p)) && extra !! AsSet(p) && Same(old(Blocks()), Blocks(), extra)
      ensures p.Some? ==> HasSize(Blocks(), p.value, |text| + 1) && Blocks()[p.value].bytes == text + [0]
      ensures p.Some? <==> old(CanTake(1, |text| + 1))
      ensures p.Some? ==> Spent(allocator, old(allocator.used), old(allocator.heap.answers), |text| + 1)
      ensures p.None? ==> Denied(allocator, old(allocator.used), old(allocator.heap.answers), |text| + 1)
    {
      hide Owned;
      p := Alloc(|text| + 1, extra);
      if p.Some? {
        Fill(p.value, text + [0], extra + {p.value});
      }
    }

    /** The error text goes; its size is computed from the text itself. */
    method DropError(ghost extra: set<nat>)
      requires Owns(extra)
      modifies this`lastError, allocator, allocator.heap
      ensures Owns(extra) && lastError == None && allocator.heap.answers == old(allocator.heap.answers)
      ensures allocator.used == old(allocator.used) - old(ErrorBytes())
      ensures |Blocks()| == |old(Blocks())| && Same(old(Blocks()), Blocks(), extra)
    {
      hide Owned;
      ExtraIsLive(Blocks(), Ledger(extra));
      if lastError.None? {
        return;
      }
      var p := lastError;
      ErrorText(Blocks(), Ledger(extra));
      ErrorOut(Blocks(), Ledger(extra));
      lastError := None;
      Release(p, TextLength(Blocks()[p.value].bytes) + 1, extra + {p.value});
      assert extra + {p.value} - {p.value} == extra;
    }

    /** Replaces the error text. Afterwards the message is held, if the memory function and the cap allow;
        otherwise the result says so, and "out of memory" is held, if that can be had, or else nothing.
        A request beyond the cap does not reach the memory function. */
    method SetError(status: Status, message: Text, ghost extra: set<nat>) returns (result: Status)
      requires Owns(extra)
      modifies this`lastError, allocator, allocator.heap
      ensures Owns(extra) && Same(old(Blocks()), Blocks(), extra)
      ensures var used, answers := old(allocator.used - ErrorBytes()), old(allocator.heap.answers);
              var fits := Within(allocator, used, |message| + 1);
              var later := if fits then Rest(answers) else answers;
              if fits && Willing(answers, 1) then result == status && Says(message)
              else
                && result == ErrAlloc
                && if Within(allocator, used, |OUT_OF_MEMORY| + 1) && Willing(later, 1)
                   then Says(OUT_OF_MEMORY) else lastError == None
    {
      hide Owned, Willing;
      DropError(extra);
      ExtraIsLive(Blocks(), Ledger(extra));
      WillingOnce(allocator.heap.answers);
      var copy := Duplicate(message, extra);
      result := status;
      TextHasLength(message);
      if copy.None? {
        assert extra + {} == extra;
        copy := Duplicate(OUT_OF_MEMORY, extra);
        result := ErrAlloc;
        TextHasLength(OUT_OF_MEMORY);
      }
      if copy.Some? {
        ErrorIn(Blocks(), Ledger(extra + {copy.value}), copy.value);
        assert extra + {copy.value} - {copy.value} == extra;
      } else {
        assert extra + {} == extra;
      }
      lastError := copy;
    }

    /** Lua grows, shrinks, makes or frees one of its blocks. */
    method LuaStep(use: LuaUse, ghost extra: set<nat>)
      requires Owns(extra)
      modifies this`lua, allocator, allocator.heap
      ensures Owns(extra) && Same(old(Blocks()), Blocks(), extra)
    {
      hide Owned;
      ExtraIsLive(Blocks(), Ledger(extra));
      if use.block.None? {
        var q := allocator.Realloc(None, 0, use.newSize);
        if q.Some? {
          ghost var was := old(Blocks());
          assert Blocks() == was + [Blocks()[q.value]];
          OwnedAppend(was, Ledger(extra), Blocks()[q.value]);
          LuaIn(Blocks(), Ledger(extra + {q.value}), q.value);
          assert extra + {q.value} - {q.value} == extra;
          lua := lua + {q.value};
        }
      } else if use.block.value in lua {
        LuaResize(use.block.value, use.newSize, extra);
      }
    }

    method LuaResize(p: nat, newSize: nat, ghost extra: set<nat>)
      requires Owns(extra) && p in lua
      modifies this`lua, allocator, allocator.heap
      ensures Owns(extra) && Same(old(Blocks()), Blocks(), extra)
      ensures newSize == 0 ==> lua == old(lua) - {p}
    {
      hide Owned;
      ghost var was := Blocks();
      ExtraIsLive(was, Ledger(extra));
      LuaOut(was, Ledger(extra), p);
      ghost var out := Ledger(extra).(lua := lua - {p}, extra := extra + {p});
      var q := allocator.Realloc(Some(p), |Blocks()[p].bytes|, newSize);
      if newSize == 0 {
        OwnedFree(was, out, p);
        assert extra + {p} - {p} == extra;
        lua := lua - {p};
      } else if q.Some? {
        OwnedResized(was, out, p, newSize, Blocks(), q.value);
        LuaIn(Blocks(), out.(extra := extra + {p} - {p} + {q.value}), q.value);
        assert extra + {p} - {p} + {q.value} - {q.value} == extra - {q.value};
        ResizedLive(was, p, newSize, Blocks(), q.value);
        assert extra - {q.value} == extra;
        lua := lua - {p} + {q.value};
      }
    }

    /** Lua runs: any use of its allocation function. */
    method LuaRuns(uses: seq<LuaUse>, ghost extra: set<nat>)
      requires Owns(extra)
      modifies this`lua, allocator, allocator.heap
      ensures Owns(extra) && Same(old(Blocks()), Blocks(), extra)
    {
      hide Owned;
      ExtraIsLive(Blocks(), Ledger(extra));
      for i := 0 to |uses|
        invariant Owns(extra) && Same(old(Blocks()), Blocks(), extra)
      {
        LuaStep(uses[i], extra);
      }
    }

    /** The blocks of a chunk under construction; a missing one is a null pointer. */
    method MakeBlocks(moduleName: Text, chunkName: Text, source: seq<Byte>)
      returns (ok: bool, c: Chunk, ghost extra: set<nat>)
      requires Owns({})
      modifies allocator, allocator.heap
      ensures Owns(extra)
      ensures ok <==> old(CanTake(4, ChunkTotal(chunkBytes, moduleName, chunkName, source)))
      ensures !ok ==> extra == {}
      ensures ok ==> extra == BlocksOf(c) && FourBlocks(c) && ChunkSized(Blocks(), c, chunkBytes)
                     && Holds(Blocks(), c, moduleName, chunkName)
                     && c.sourceSize == (if source != [] then |source| else 1)
    {
      hide Owned, Willing, Denied;
      WillingFour(allocator.heap.answers);
      c, extra := Chunk(0, 0, 0, 0, 0, 0, 0), {};
      var r := Alloc(chunkBytes, {});
      assert {} + AsSet(r) == AsSet(r);
      if r.None? {
        return false, c, {};
      }
      var sourceSize := if |source| != 0 then |source| else 1;
      var m, n, s := MakeTexts(r.value, moduleName, chunkName, sourceSize);
      if m.None? || n.None? || s.None? {
        Undo(r.value, m, |moduleName| + 1, n, |chunkName| + 1, s, sourceSize);
        return false, c, {};
      }
      c := Chunk(r.value, m.value, |moduleName| + 1, n.value, |chunkName| + 1, s.value, sourceSize);
      extra := BlocksOf(c);
      assert {r.value} + AsSet(m) + AsSet(n) + AsSet(s) == extra;
      FourDistinct(c);
      ok := true;
    }

    /** The names and the room for the source; each is asked for even when another was denied. */
    method MakeTexts(r: nat, moduleName: Text, chunkName: Text, sourceSize: nat)
      returns (m: Option<nat>, n: Option<nat>, s: Option<nat>)
      requires Owns({r}) && sourceSize > 0
      modifies allocator, allocator.heap
      ensures Owns({r} + AsSet(m) + AsSet(n) + AsSet(s)) && Same(old(Blocks()), Blocks(), {r})
      ensures {r} !! AsSet(m) && ({r} + AsSet(m)) !! AsSet(n) && ({r} + AsSet(m) + AsSet(n)) !! AsSet(s)
      ensures m.Some? ==> HasText(Blocks(), m.value, moduleName)
      ensures n.Some? ==> HasText(Blocks(), n.value, chunkName)
      ensures s.Some? ==> HasSize(Blocks(), s.value, sourceSize)
      ensures m.Some? && n.Some? && s.Some? <==>
              old(CanTake(3, |moduleName| + 1 + (|chunkName| + 1) + sourceSize))
    {
      hide Owned, Willing, Denied;
      WillingThree(allocator.heap.answers);
      m := Duplicate(moduleName, {r});
      n := Duplicate(chunkName, {r} + AsSet(m));
      s := Alloc(sourceSize, {r} + AsSet(m) + AsSet(n));
    }

    /** Frees what was allocated of a chunk that could not be completed. */
    method Undo(r: nat, m: Option<nat>, mSize: nat, n: Option<nat>, nSize: nat, s: Option<nat>, sSize: nat)
      requires Owns({r} + AsSet(m) + AsSet(n) + AsSet(s))
      requires {r} !! AsSet(m) && ({r} + AsSet(m)) !! AsSet(n) && ({r} + AsSet(m) + AsSet(n)) !! AsSet(s)
      requires HasSize(Blocks(), r, chunkBytes) && (m.Some? ==> HasSize(Blocks(), m.value, mSize))
      requires (n.Some? ==> HasSize(Blocks(), n.value, nSize)) && (s.Some? ==> HasSize(Blocks(), s.value, sSize))
      modifies allocator, allocator.heap
      ensures Owns({})
    {
      hide Owned;
      ghost var e := {r} + AsSet(m) + AsSet(n) + AsSet(s);
      Release(m, mSize, e);
      Release(n, nSize, e - AsSet(m));
      Release(s, sSize, e - AsSet(m) - AsSet(n));
      assert e - AsSet(m) - AsSet(n) - AsSet(s) == {r};
      Release(Some(r), chunkBytes, {r});
      assert {r} - {r} == {};
    }

    /** Frees a chunk that is in no list. */
    method FreeBlocks(c: Chunk, ghost extra: set<nat>)
      requires Owns(extra) && BlocksOf(c) <= extra && FourBlocks(c) && ChunkSized(Blocks(), c, chunkBytes)
      modifies allocator, allocator.heap
      ensures Owns(extra - BlocksOf(c))
    {
      hide Owned;
      FourDistinct(c);
      ghost var e1 := extra - {c.moduleName};
      ghost var e2 := e1 - {c.chunkName};
      ghost var e3 := e2 - {c.source};
      Release(Some(c.moduleName), c.moduleNameSize, extra);
      Release(Some(c.chunkName), c.chunkNameSize, e1);
      Release(Some(c.source), c.sourceSize, e2);
      Release(Some(c.record), chunkBytes, e3);
      assert e3 - {c.record} == extra - BlocksOf(c);
    }

    /** Registers a preload module: on success one chunk more, on any failure no chunk and no block more.
        It succeeds exactly when its four blocks can be had and the protected call accepts it. */
    method Register(moduleName: Text, chunkName: Option<Text>, source: seq<Byte>, uses: seq<LuaUse>,
                    accepted: bool, message: Text) returns (result: Status)
      requires Owns({})
      modifies this, allocator, allocator.heap
      ensures Owns({})
      ensures result == Good ==>
                && |chunks| == |old(chunks)| + 1 && chunks[1..] == old(chunks) && lastError == None && accepted
                && ChunkSized(Blocks(), chunks[0], chunkBytes)
                && Holds(Blocks(), chunks[0], moduleName, if chunkName.None? then moduleName else chunkName.value)
                && (source != [] ==> Blocks()[chunks[0].source].bytes == source)
      ensures result != Good ==> chunks == old(chunks)
      ensures result == Good <==>
              && accepted
              && old(CanTake(4, ChunkTotal(chunkBytes, moduleName,
                                           if chunkName.None? then moduleName else chunkName.value, source)))
    {
      hide Owned;
      var name := if chunkName.None? then moduleName else chunkName.value;
      var ok, c, extra := MakeBlocks(moduleName, name, source);
      if !ok {
        result := SetError(ErrAlloc, OUT_OF_MEMORY, {});
        return;
      }
      FourDistinct(c);
      if source != [] {
        Fill(c.source, source, extra);
      }
      LuaRuns(uses, extra);
      if !accepted {
        result := SetError(ErrRuntime, message, extra);
        FreeBlocks(c, extra);
        assert extra - BlocksOf(c) == {};
        return;
      }
      DropError(extra);
      ChunkIn(Blocks(), Ledger(extra), c);
      assert extra - BlocksOf(c) == {};
      chunks := [c] + chunks;
      result := Good;
    }

    /** Destruction frees every block: Lua's, the chunks, the error text, and last the record itself,
        through a copy of the allocator made beforehand. */
    method Destroy()
      requires Owns({})
      modifies this, allocator, allocator.heap
      ensures LiveSet(Blocks()) == {}
    {
      hide Owned;
      RecordIsLive(Blocks(), Ledger({}));
      TotalUpdate(Blocks(), record, Free);
      var copy := new Allocator.Copy(allocator);
      CloseLua();
      ClearChunks();
      DropError({});
      OnlyRecord(Blocks(), Ledger({}));
      copy.Release(Some(record), recordBytes);
    }

    method CloseLua()
      requires Owns({})
      modifies this`lua, allocator, allocator.heap
      ensures Owns({}) && lua == {}
    {
      hide Owned;
      while lua != {}
        invariant Owns({})
        decreases |lua|
      {
        var p :| p in lua;
        LuaResize(p, 0, {});
      }
    }

    method ClearChunks()
      requires Owns({})
      modifies this`chunks, allocator, allocator.heap
      ensures Owns({}) && chunks == []
    {
      hide Owned;
      while chunks != []
        invariant Owns({})
        decreases |chunks|
      {
        var c := chunks[0];
        ChunkOut(Blocks(), Ledger({}));
        assert {} + BlocksOf(c) == BlocksOf(c);
        chunks := chunks[1..];
        FreeBlocks(c, BlocksOf(c));
        assert BlocksOf(c) - BlocksOf(c) == {};
      }
    }
  }

  /** Bytes of the four blocks of a chunk. */
  function ChunkTotal(chunkBytes: nat, moduleName: Text, chunkName: Text, source: seq<Byte>): nat {
    chunkBytes + (|moduleName| + 1) + (|chunkName| + 1) + if |source| != 0 then |source| else 1
  }

  /** One request of `n` bytes was granted. */
  predicate Spent(a: Allocator, used: nat, answers: seq<Answer>, n: nat)
    reads a, a.heap
  {
    a.used == used + n && a.heap.answers == Rest(answers)
  }

  /** One request of `n` bytes was denied, by the cap before the memory function is asked. */
  predicate Denied(a: Allocator, used: nat, answers: seq<Answer>, n: nat)
    reads a, a.heap
  {
    a.used == used && a.heap.answers == if Within(a, used, n) then Rest(answers) else answers
  }

  /** Whether `n` bytes more than `used` stay within the cap. */
  predicate Within(a: Allocator, used: int, n: nat) { a.maxBytes == 0 || used + n <= a.maxBytes }

  function AsSet(p: Option<nat>): set<nat> { if p.None? then {} else {p.value} }

  /** The names a chunk was registered with. */
  predicate Holds(blocks: seq<Block>, c: Chunk, moduleName: Text, chunkName: Text) {
    HasText(blocks, c.moduleName, moduleName) && HasText(blocks, c.chunkName, chunkName)
  }

  predicate HasText(blocks: seq<Block>, p: nat, text: Text) {
    HasSize(blocks, p, |text| + 1) && blocks[p].bytes == text + [0]
  }

  lemma FourDistinct(c: Chunk)
    ensures FourBlocks(c) <==>
            && c.record != c.moduleName && c.record != c.chunkName && c.record != c.source
            && c.moduleName != c.chunkName && c.moduleName != c.source && c.chunkName != c.source
  {
  }

  lemma RecordIsLive(blocks: seq<Block>, b: Book)
    requires Owned(blocks, b)
    ensures HasSize(blocks, b.record, b.recordBytes)
  {
  }

  lemma OnlyRecord(blocks: seq<Block>, b: Book)
    requires Owned(blocks, b) && b.lua == {} && b.chunks == [] && b.error == None && b.extra == {}
    ensures LiveSet(blocks) == {b.record} && HasSize(blocks, b.record, b.recordBytes)
    ensures LiveSet(blocks[b.record := Free]) == {}
  {
    FreeOne(blocks, b.record);
  }

  lemma FreeOne(blocks: seq<Block>, p: nat)
    requires p < |blocks|
    ensures LiveSet(blocks[p := Free]) == LiveSet(blocks) - {p}
  {
  }

  lemma ErrorText(blocks: seq<Block>, b: Book)
    requires Owned(blocks, b) && b.error.Some?
    ensures b.error.value < |blocks| && blocks[b.error.value].Live? && IsText(blocks[b.error.value].bytes)
  {
  }
}
