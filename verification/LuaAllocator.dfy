/** The byte-capped allocator of src/lua_runtime.c over the memory functions a user supplies. */
module LuaAllocator {
  import opened Common

  datatype Block = Free | Live(bytes: seq<Byte>)

  /** How a memory function answers: not at all, at the same address, or at a new one. */
  datatype Answer = Refuse | InPlace | Move

  function Size(b: Block): nat { if b.Live? then |b.bytes| else 0 }

  /** Bytes in all live blocks. */
  function Total(blocks: seq<Block>): nat {
    if blocks == [] then 0 else Total(blocks[..|blocks| - 1]) + Size(blocks[|blocks| - 1])
  }

  lemma TotalSnoc(blocks: seq<Block>, b: Block)
    ensures Total(blocks + [b]) == Total(blocks) + Size(b)
  {
    assert (blocks + [b])[..|blocks|] == blocks;
  }

  /** Changing one block changes the total by the difference of its sizes. */
  lemma {:induction false} TotalUpdate(blocks: seq<Block>, p: nat, b: Block)
    requires p < |blocks|
    ensures Total(blocks[p := b]) + Size(blocks[p]) == Total(blocks) + Size(b)
    ensures Size(blocks[p]) <= Total(blocks)
    decreases |blocks|
  {
    var init := blocks[..|blocks| - 1];
    if p == |blocks| - 1 {
      assert blocks[p := b][..|blocks| - 1] == init;
    } else {
      TotalUpdate(init, p, b);
      assert blocks[p := b][..|blocks| - 1] == init[p := b];
    }
  }

  /** The answers after one request. */
  function Rest(answers: seq<Answer>): seq<Answer> { if answers == [] then [] else answers[1..] }

  /** None of the next `n` requests will be refused. */
  predicate Willing(answers: seq<Answer>, n: nat) {
    n == 0 || ((answers == [] || answers[0] != Refuse) && Willing(Rest(answers), n - 1))
  }

  lemma WillingOnce(answers: seq<Answer>)
    ensures Willing(answers, 1) <==> answers == [] || answers[0] != Refuse
  {
    assert Willing(Rest(answers), 0);
  }

  lemma WillingThree(answers: seq<Answer>)
    ensures Willing(answers, 3) <==>
            Willing(answers, 1) && Willing(Rest(answers), 1) && Willing(Rest(Rest(answers)), 1)
  {
    var a, b := Rest(answers), Rest(Rest(answers));
    WillingOnce(answers);
    WillingOnce(a);
    WillingOnce(b);
    assert Willing(answers, 3) <==> Willing(answers, 1) && Willing(a, 2);
    assert Willing(a, 2) <==> Willing(a, 1) && Willing(b, 1);
  }

  lemma WillingFour(answers: seq<Answer>)
    ensures Willing(answers, 4) <==> Willing(answers, 1) && Willing(Rest(answers), 3)
  {
    WillingOnce(answers);
  }

  /** The user's memory functions. Addresses are never used twice. */
  class Heap {
    var blocks: seq<Block>
    var answers: seq<Answer>

    constructor (answers: seq<Answer>)
      ensures blocks == [] && this.answers == answers
    {
      blocks, this.answers := [], answers;
    }

    function IsLive(p: nat): bool
      reads this
    {
      p < |blocks| && blocks[p].Live?
    }

    /** The next request will be refused. */
    predicate Refuses()
      reads this
    {
      answers != [] && answers[0] == Refuse
    }

    method Answered() returns (a: Answer)
      modifies this`answers
      ensures a == Refuse <==> old(Refuses())
      ensures answers == Rest(old(answers))
    {
      if answers == [] {
        return Move;
      }
      a := answers[0];
      answers := answers[1..];
    }

    method Provide(n: nat) returns (p: Option<nat>)
      modifies this
      ensures p.None? <==> old(Refuses())
      ensures answers == Rest(old(answers))
      ensures p.None? ==> blocks == old(blocks)
      ensures p.Some? ==> p.value == |old(blocks)| && |blocks| == |old(blocks)| + 1 && blocks[..p.value] == old(blocks)
                          && blocks[p.value].Live? && |blocks[p.value].bytes| == n
    {
      var a := Answered();
      if a == Refuse {
        return None;
      }
      p := Some(|blocks|);
      blocks := blocks + [Live(seq(n, _ => 0))];
    }

    method Store(p: nat, bytes: seq<Byte>)
      requires IsLive(p) && |bytes| == |blocks[p].bytes|
      modifies this`blocks
      ensures blocks == old(blocks)[p := Live(bytes)]
    {
      blocks := blocks[p := Live(bytes)];
    }

    method Return(p: nat, n: nat)
      requires IsLive(p) && n == |blocks[p].bytes|
      modifies this`blocks
      ensures blocks == old(blocks)[p := Free]
    {
      blocks := blocks[p := Free];
    }

    /** The user's reallocation function, when there is one. */
    method Resize(p: nat, n: nat) returns (q: Option<nat>)
      requires IsLive(p)
      modifies this
      ensures q.None? <==> old(Refuses())
      ensures Resized(old(blocks), p, n, blocks, q)
    {
      var a := Answered();
      var was := blocks[p].bytes;
      var keep := Min(|was|, n);
      var now := was[..keep] + seq(n - keep, _ => 0);
      match a {
        case Refuse => return None;
        case InPlace =>
          blocks := blocks[p := Live(now)];
          return Some(p);
        case Move =>
          blocks := blocks[p := Free] + [Live(now)];
          return Some(|blocks| - 1);
      }
    }
  }

  /** What reallocation promises: on refusal nothing changes; otherwise the block lives on, at the same
      or a new address, with the new size and the common prefix of its bytes, and no other block
      changes. */
  ghost predicate Resized(was: seq<Block>, p: nat, n: nat, now: seq<Block>, q: Option<nat>)
    requires p < |was| && was[p].Live?
  {
    match q
    case None => now == was
    case Some(r) =>
      && (if r == p then |now| == |was| else r == |was| && |now| == |was| + 1 && now[p].Free?)
      && now[r].Live? && |now[r].bytes| == n
      && now[r].bytes[..Min(n, |was[p].bytes|)] == was[p].bytes[..Min(n, |was[p].bytes|)]
      && forall k :: 0 <= k < |was| && k != p ==> now[k] == was[k]
  }

  lemma ResizedTotal(was: seq<Block>, p: nat, n: nat, now: seq<Block>, r: nat)
    requires p < |was| && was[p].Live? && Resized(was, p, n, now, Some(r))
    ensures Total(now) + |was[p].bytes| == Total(was) + n && |was[p].bytes| <= Total(was)
  {
    if r == p {
      assert now == was[p := now[p]];
      TotalUpdate(was, p, now[p]);
    } else {
      assert now == was[p := Free] + [now[r]];
      TotalUpdate(was, p, Free);
      TotalSnoc(was[p := Free], now[r]);
    }
  }

  class Allocator {
    const heap: Heap
    /** Zero means no cap. */
    const maxBytes: nat
    const hasRealloc: bool
    var used: nat
    var failed: bool

    constructor (heap: Heap, maxBytes: nat, hasRealloc: bool)
      requires heap.blocks == []
      ensures Valid() && this.heap == heap && this.maxBytes == maxBytes && this.hasRealloc == hasRealloc && !failed
    {
      this.heap, this.maxBytes, this.hasRealloc := heap, maxBytes, hasRealloc;
      used, failed := 0, false;
    }

    /** A copy of the record over the same memory. */
    constructor Copy(other: Allocator)
      ensures heap == other.heap && maxBytes == other.maxBytes && hasRealloc == other.hasRealloc
      ensures used == other.used && failed == other.failed
    {
      heap, maxBytes, hasRealloc := other.heap, other.maxBytes, other.hasRealloc;
      used, failed := other.used, other.failed;
    }

    /** The count is exactly the bytes in live blocks and never exceeds the cap. */
    ghost predicate Valid()
      reads this, heap
    {
      used == Total(heap.blocks) && (maxBytes != 0 ==> used <= maxBytes)
    }

    /** Refuses a growth that would pass the cap. Like `Account` it takes a count below the old size for
        zero, which is never the case (NeverSaturates). */
    method CanGrow(oldSize: nat, newSize: nat) returns (ok: bool)
      modifies this`failed
      ensures used >= oldSize ==> (ok <==> maxBytes == 0 || newSize <= oldSize || used - oldSize + newSize <= maxBytes)
      ensures used < oldSize ==> (ok <==> maxBytes == 0 || newSize <= oldSize || newSize <= maxBytes)
      ensures failed == (old(failed) || !ok)
    {
      if maxBytes == 0 || newSize <= oldSize {
        return true;
      }
      var adjusted := used;
      if adjusted >= oldSize {
        adjusted := adjusted - oldSize;
      } else {
        adjusted := 0;
      }
      if adjusted >= maxBytes || newSize > maxBytes - adjusted {
        failed := true;
        return false;
      }
      return true;
    }

    /** Brings the count up to date after a block of `oldSize` became one of `newSize`. */
    method Account(oldSize: nat, newSize: nat)
      modifies this`used
      ensures old(used) >= oldSize ==> used - old(used) == newSize - oldSize
      ensures old(used) < oldSize ==> used == newSize
      ensures old(used) >= oldSize && Total(heap.blocks) - old(used) == newSize - oldSize ==>
                used == Total(heap.blocks)
    {
      if used >= oldSize {
        used := used - oldSize;
      } else {
        used := 0;
      }
      used := used + newSize;
    }

    method Alloc(request: nat) returns (p: Option<nat>)
      requires Valid()
      modifies this, heap
      ensures Valid()
      ensures p.None? <==>
              old(heap.Refuses()) || (maxBytes != 0 && old(used) + (if request == 0 then 1 else request) > maxBytes)
      ensures p.None? ==>
                && heap.blocks == old(heap.blocks) && failed && used == old(used)
                && heap.answers == if maxBytes != 0 && used + (if request == 0 then 1 else request) > maxBytes
                                   then old(heap.answers) else Rest(old(heap.answers))
      ensures p.Some? ==>
                && p.value == |old(heap.blocks)| && |heap.blocks| == p.value + 1
                && heap.blocks[..p.value] == old(heap.blocks)
                && heap.IsLive(p.value) && |heap.blocks[p.value].bytes| == (if request == 0 then 1 else request)
                && used == old(used) + (if request == 0 then 1 else request)
                && heap.answers == Rest(old(heap.answers))
    {
      var size := if request == 0 then 1 else request;
      var ok := CanGrow(0, size);
      if !ok {
        return None;
      }
      p := heap.Provide(size);
      if p.None? {
        failed := true;
        return;
      }
      ghost var was := old(heap.blocks);
      assert heap.blocks == was + [heap.blocks[p.value]];
      TotalSnoc(was, heap.blocks[p.value]);
      Account(0, size);
    }

    /** Freeing with the allocated size. The count never saturates at zero, not even in a copy of the
        record whose count is out of date, as long as it was right when the block was live. */
    method Release(p: Option<nat>, size: nat)
      requires p.Some? ==> heap.IsLive(p.value) && size == |heap.blocks[p.value].bytes| && (Valid() || used >= size)
      modifies this, heap
      ensures old(Valid()) ==> Valid()
      ensures failed == old(failed) && used == old(used) - if p.None? then 0 else size
      ensures heap.answers == old(heap.answers)
      ensures heap.blocks == if p.None? then old(heap.blocks) else old(heap.blocks)[p.value := Free]
    {
      if p.None? {
        return;
      }
      if Valid() {
        NeverSaturates(this, p.value);
        TotalUpdate(heap.blocks, p.value, Free);
      }
      heap.Return(p.value, size);
      Account(size, 0);
    }

    /** The allocation-copy-free form used when the user supplies no reallocation function. */
    method CopyOver(p: nat, oldSize: nat, newSize: nat) returns (q: Option<nat>)
      requires heap.IsLive(p) && oldSize == |heap.blocks[p].bytes|
      modifies heap
      ensures q.None? <==> old(heap.Refuses())
      ensures Resized(old(heap.blocks), p, newSize, heap.blocks, q)
    {
      q := heap.Provide(newSize);
      if q.None? {
        return;
      }
      var copied := Min(oldSize, newSize);
      var bytes := heap.blocks[p].bytes[..copied] + heap.blocks[q.value].bytes[copied..];
      heap.Store(q.value, bytes);
      heap.Return(p, oldSize);
    }

    /** Reallocation with the true old size; also the allocation function given to Lua, which passes a
        type tag instead of a size with a null pointer. Both forms keep the same promise. */
    method Realloc(p: Option<nat>, oldSize: nat, newSize: nat) returns (q: Option<nat>)
      requires Valid() && (p.Some? ==> heap.IsLive(p.value) && oldSize == |heap.blocks[p.value].bytes|)
      modifies this, heap
      ensures Valid()
      ensures newSize == 0 ==>
                q.None? && heap.blocks == if p.None? then old(heap.blocks) else old(heap.blocks)[p.value := Free]
      ensures newSize > 0 && p.Some? ==> Resized(old(heap.blocks), p.value, newSize, heap.blocks, q)
      ensures newSize > 0 ==>
                var oldBytes := if p.None? then 0 else oldSize;
                (q.None? <==> old(heap.Refuses()) ||
                              (maxBytes != 0 && newSize > oldBytes && old(used) - oldBytes + newSize > maxBytes))
      ensures newSize > 0 && q.None? ==> failed && heap.blocks == old(heap.blocks)
      ensures newSize > 0 && p.None? && q.Some? ==>
                && |heap.blocks| == |old(heap.blocks)| + 1 && q.value == |old(heap.blocks)|
                && heap.blocks[..q.value] == old(heap.blocks)
                && heap.IsLive(q.value) && |heap.blocks[q.value].bytes| == newSize
    {
      if newSize == 0 {
        Release(p, if p.None? then 0 else oldSize);
        return None;
      }
      if p.None? {
        q := Alloc(newSize);
        return;
      }
      NeverSaturates(this, p.value);
      var ok := CanGrow(oldSize, newSize);
      if !ok {
        return None;
      }
      if hasRealloc {
        q := heap.Resize(p.value, newSize);
      } else {
        q := CopyOver(p.value, oldSize, newSize);
      }
      if q.None? {
        failed := true;
        return;
      }
      ResizedTotal(old(heap.blocks), p.value, newSize, heap.blocks, q.value);
      Account(oldSize, newSize);
    }
  }

  /** Every live block is counted, so an operation given its true size never saturates at zero. */
  lemma NeverSaturates(a: Allocator, p: nat)
    requires a.Valid() && a.heap.IsLive(p)
    ensures |a.heap.blocks[p].bytes| <= a.used
  {
    TotalUpdate(a.heap.blocks, p, Free);
  }
}
