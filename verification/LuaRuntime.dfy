/** Memory the Lua runtime facade of src/lua_runtime.c owns: itself, its error text and its preload
    chunks, beside the blocks Lua allocates through the same allocator. */
module LuaRuntime {
  import opened Common
  import opened LuaAllocator

  type Text = s: seq<Byte> | 0 !in s

  datatype Status = Good | ErrAlloc | ErrRuntime

  const OUT_OF_MEMORY: Text := [111, 117, 116, 32, 111, 102, 32, 109, 101, 109, 111, 114, 121]

  /** A registered preload chunk: its record, two names and source, with the sizes it remembers. */
  datatype Chunk = Chunk(record: nat, moduleName: nat, moduleNameSize: nat, chunkName: nat, chunkNameSize: nat,
                         source: nat, sourceSize: nat)

  /** One use Lua makes of its allocation function: a block of its own, or none, and a new size. */
  datatype LuaUse = LuaUse(block: Option<nat>, newSize: nat)

  function LiveSet(blocks: seq<Block>): set<nat> { set p: nat | p < |blocks| && blocks[p].Live? }

  function BlocksOf(c: Chunk): set<nat> { {c.record, c.moduleName, c.chunkName, c.source} }

  function AllBlocks(chunks: seq<Chunk>): set<nat> {
    if chunks == [] then {} else BlocksOf(chunks[0]) + AllBlocks(chunks[1..])
  }

  predicate FourBlocks(c: Chunk) { |BlocksOf(c)| == 4 }

  predicate HasSize(blocks: seq<Block>, p: nat, n: nat) {
    p < |blocks| && blocks[p].Live? && |blocks[p].bytes| == n
  }

  predicate ChunkSized(blocks: seq<Block>, c: Chunk, recordBytes: nat) {
    && HasSize(blocks, c.record, recordBytes) && HasSize(blocks, c.moduleName, c.moduleNameSize)
    && HasSize(blocks, c.chunkName, c.chunkNameSize) && HasSize(blocks, c.source, c.sourceSize)
  }

  /** Chunks are made of four blocks each, share none, and remember the right sizes. */
  predicate ChunksSound(blocks: seq<Block>, chunks: seq<Chunk>, recordBytes: nat) {
    chunks == [] ||
    (FourBlocks(chunks[0]) && ChunkSized(blocks, chunks[0], recordBytes) &&
     BlocksOf(chunks[0]) !! AllBlocks(chunks[1..]) && ChunksSound(blocks, chunks[1..], recordBytes))
  }

  /** Length of the text in a block: the bytes before the first zero. */
  function TextLength(bytes: seq<Byte>): (n: nat)
    ensures n <= |bytes|
    ensures n < |bytes| ==> bytes[n] == 0
    ensures forall i :: 0 <= i < n ==> bytes[i] != 0
  {
    if bytes == [] || bytes[0] == 0 then 0 else 1 + TextLength(bytes[1..])
  }

  predicate IsText(bytes: seq<Byte>) { bytes != [] && TextLength(bytes) == |bytes| - 1 }

  lemma {:induction false} TextHasLength(t: seq<Byte>)
    requires 0 !in t
    ensures IsText(t + [0])
  {
    if t != [] {
      assert (t + [0])[1..] == t[1..] + [0];
      TextHasLength(t[1..]);
    }
  }

  // ----- who owns which block -----

  /** Who accounts for the live blocks: the runtime record, the error text, the chunks, Lua, and the
      call in progress (`extra`). */
  datatype Book = Book(record: nat, recordBytes: nat, chunkBytes: nat, error: Option<nat>, chunks: seq<Chunk>,
                       lua: set<nat>, extra: set<nat>)

  function Errors(b: Book): set<nat> { if b.error.None? then {} else {b.error.value} }

  /** What the facade keeps from one call to the next, apart from the error text. */
  function Kept(b: Book): set<nat> { {b.record} + AllBlocks(b.chunks) }

  /** Every live block has exactly one owner and every remembered size is right. */
  ghost predicate Owned(blocks: seq<Block>, b: Book) {
    && LiveSet(blocks) == Kept(b) + Errors(b) + b.lua + b.extra
    && b.record !in AllBlocks(b.chunks)
    && Kept(b) !! Errors(b) && Kept(b) !! b.lua && Errors(b) !! b.lua
    && b.extra !! (Kept(b) + Errors(b) + b.lua)
    && ChunksSound(blocks, b.chunks, b.chunkBytes)
    && HasSize(blocks, b.record, b.recordBytes)
    && (b.error.Some? ==>
          b.error.value < |blocks| && blocks[b.error.value].Live? && IsText(blocks[b.error.value].bytes))
  }

  /** Blocks in `these` are as they were. */
  predicate Same(was: seq<Block>, now: seq<Block>, these: set<nat>) {
    forall p :: p in these ==> p < |was| && p < |now| && now[p] == was[p]
  }

  lemma {:induction false} ChunksKept(was: seq<Block>, now: seq<Block>, chunks: seq<Chunk>, recordBytes: nat,
                                      these: set<nat>)
    requires ChunksSound(was, chunks, recordBytes) && AllBlocks(chunks) <= these && Same(was, now, these)
    ensures ChunksSound(now, chunks, recordBytes)
  {
    if chunks != [] {
      ChunksKept(was, now, chunks[1..], recordBytes, these);
    }
  }

  /** Whatever happens to blocks of `extra`, and to new ones, leaves the rest of the book in order. */
  lemma OwnedExtra(was: seq<Block>, now: seq<Block>, b: Book, extra: set<nat>)
    requires Owned(was, b) && Same(was, now, LiveSet(was) - b.extra)
    requires LiveSet(now) == (LiveSet(was) - b.extra) + extra && extra !! (LiveSet(was) - b.extra)
    ensures Owned(now, b.(extra := extra))
  {
    var rest := Kept(b) + Errors(b) + b.lua;
    assert LiveSet(was) - b.extra == rest;
    ChunksKept(was, now, b.chunks, b.chunkBytes, rest);
    assert b.record in rest;
    hide ChunksSound, AllBlocks, LiveSet;
  }

  lemma ExtraIsLive(blocks: seq<Block>, b: Book)
    requires Owned(blocks, b)
    ensures b.extra <= LiveSet(blocks)
  {
    hide ChunksSound, AllBlocks, LiveSet;
  }

  lemma OwnedAppend(was: seq<Block>, b: Book, x: Block)
    requires Owned(was, b) && x.Live?
    ensures Owned(was + [x], b.(extra := b.extra + {|was|})) && |was| !in b.extra && |was| !in LiveSet(was)
  {
    hide Owned;
    ExtraIsLive(was, b);
    assert LiveSet(was + [x]) == LiveSet(was) + {|was|};
    OwnedExtra(was, was + [x], b, b.extra + {|was|});
  }

  lemma OwnedFree(was: seq<Block>, b: Book, p: nat)
    requires Owned(was, b) && p in b.extra
    ensures p < |was| && Owned(was[p := Free], b.(extra := b.extra - {p}))
  {
    hide Owned;
    ExtraIsLive(was, b);
    assert LiveSet(was[p := Free]) == LiveSet(was) - {p};
    OwnedExtra(was, was[p := Free], b, b.extra - {p});
  }

  lemma OwnedWrite(was: seq<Block>, b: Book, p: nat, bytes: seq<Byte>)
    requires Owned(was, b) && p in b.extra
    ensures p < |was| && Owned(was[p := Live(bytes)], b)
  {
    hide Owned;
    ExtraIsLive(was, b);
    assert LiveSet(was[p := Live(bytes)]) == LiveSet(was);
    OwnedExtra(was, was[p := Live(bytes)], b, b.extra);
    assert b.(extra := b.extra) == b;
  }

  /** The error text changes hands with the call in progress. */
  lemma ErrorOut(blocks: seq<Block>, b: Book)
    requires Owned(blocks, b) && b.error.Some?
    ensures Owned(blocks, b.(error := None, extra := b.extra + {b.error.value})) && b.error.value !in b.extra
  {
    hide ChunksSound, AllBlocks, LiveSet;
  }

  lemma ErrorIn(blocks: seq<Block>, b: Book, p: nat)
    requires Owned(blocks, b) && b.error.None? && p in b.extra
    requires p < |blocks| && blocks[p].Live? && IsText(blocks[p].bytes)
    ensures Owned(blocks, b.(error := Some(p), extra := b.extra - {p}))
  {
    hide ChunksSound, AllBlocks, LiveSet;
  }

  lemma ChunkIn(blocks: seq<Block>, b: Book, c: Chunk)
    requires Owned(blocks, b) && BlocksOf(c) <= b.extra && FourBlocks(c) && ChunkSized(blocks, c, b.chunkBytes)
    ensures Owned(blocks, b.(chunks := [c] + b.chunks, extra := b.extra - BlocksOf(c)))
  {
    hide LiveSet, BlocksOf, FourBlocks, ChunkSized, HasSize;
    var chunks := [c] + b.chunks;
    assert chunks[1..] == b.chunks;
    assert AllBlocks(chunks) == BlocksOf(c) + AllBlocks(b.chunks);
    assert ChunksSound(blocks, chunks, b.chunkBytes);
    hide AllBlocks, ChunksSound;
  }

  lemma ChunkOut(blocks: seq<Block>, b: Book)
    requires Owned(blocks, b) && b.chunks != []
    ensures var c := b.chunks[0];
            && Owned(blocks, b.(chunks := b.chunks[1..], extra := b.extra + BlocksOf(c)))
            && FourBlocks(c) && ChunkSized(blocks, c, b.chunkBytes) && BlocksOf(c) !! b.extra
  {
    hide LiveSet, BlocksOf, FourBlocks, ChunkSized, HasSize;
    assert AllBlocks(b.chunks) == BlocksOf(b.chunks[0]) + AllBlocks(b.chunks[1..]);
    assert ChunksSound(blocks, b.chunks[1..], b.chunkBytes);
  }

  lemma LuaIn(blocks: seq<Block>, b: Book, p: nat)
    requires Owned(blocks, b) && p in b.extra
    ensures Owned(blocks, b.(lua := b.lua + {p}, extra := b.extra - {p}))
  {
    hide ChunksSound, AllBlocks, LiveSet;
  }

  lemma LuaOut(blocks: seq<Block>, b: Book, p: nat)
    requires Owned(blocks, b) && p in b.lua
    ensures Owned(blocks, b.(lua := b.lua - {p}, extra := b.extra + {p})) && p in LiveSet(blocks) && p !in b.extra
  {
    hide ChunksSound, AllBlocks, LiveSet;
  }

  lemma OwnedResized(was: seq<Block>, b: Book, p: nat, n: nat, now: seq<Block>, r: nat)
    requires Owned(was, b) && p in b.extra && p < |was| && was[p].Live? && Resized(was, p, n, now, Some(r))
    ensures Owned(now, b.(extra := b.extra - {p} + {r}))
    ensures Same(was, now, LiveSet(was) - {p})
  {
    hide Owned;
    ExtraIsLive(was, b);
    ResizedLive(was, p, n, now, r);
    OwnedExtra(was, now, b, b.extra - {p} + {r});
  }

  lemma ResizedLive(was: seq<Block>, p: nat, n: nat, now: seq<Block>, r: nat)
    requires p < |was| && was[p].Live? && Resized(was, p, n, now, Some(r))
    ensures LiveSet(now) == LiveSet(was) - {p} + {r} && (r != p ==> r !in LiveSet(was))
    ensures Same(was, now, LiveSet(was) - {p})
  {
  }
}
