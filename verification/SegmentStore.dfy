/** The two buffers behind a segmenter: the two-tier frame store and the prebuffer ring. */
module SegmentStore {
  import opened Common
  import opened Segmentation

  /** Frames of the open segment: first a memory array, then, once that is full, a temporary file
      that takes over everything. The file is its contents and a position. */
  class FrameStore {
    const limit: nat
    const frames: array<Frame>
    var memoryCount: nat
    var spooled: bool
    var spool: seq<Frame>
    var position: nat
    var total: nat
    var readCursor: nat

    ghost predicate Valid()
      reads this
    {
      && memoryCount <= frames.Length
      && position <= |spool|
      && readCursor <= total
      && if spooled then memoryCount == 0 && total == |spool| else total == memoryCount && spool == []
    }

    function Contents(): (r: seq<Frame>)
      requires Valid()
      reads this, frames
      ensures |r| == total
    {
      if spooled then spool else frames[..memoryCount]
    }

    /** Nothing has been read back, so the next write goes to the end of the file. */
    ghost predicate AtEnd()
      reads this
    {
      position == |spool|
    }

    /** The file position and the read cursor agree, as they do from a rewind on. */
    ghost predicate Reading()
      reads this
    {
      spooled ==> position == readCursor
    }

    constructor (capacity: nat, limit: nat)
      requires capacity > 0
      ensures Valid() && Contents() == [] && AtEnd() && !spooled
      ensures this.limit == limit && frames.Length == capacity && fresh(frames)
    {
      this.limit := limit;
      frames := new Frame[capacity](_ => 0.0);
      memoryCount, spooled, spool, position, total, readCursor := 0, false, [], 0, 0, 0;
    }

    method Spill()
      requires Valid() && AtEnd() && !spooled
      modifies this
      ensures Valid() && AtEnd() && spooled
      ensures Contents() == old(Contents()) && total == old(total)
    {
      spooled := true;
      spool := frames[..memoryCount];
      position := memoryCount;
      memoryCount := 0;
    }

    method WriteSpool(x: Frame)
      requires AtEnd()
      modifies `spool, `position
      ensures spool == old(spool) + [x] && AtEnd()
    {
      spool := spool[..position] + [x] + spool[Min(position + 1, |spool|)..];
      position := position + 1;
    }

    method Append(x: Frame) returns (result: Result)
      requires Valid() && AtEnd()
      modifies this, frames
      ensures Valid() && AtEnd()
      ensures result == if |old(Contents())| >= limit then Result.AtEnd else Ok
      ensures Contents() == if result == Ok then old(Contents()) + [x] else old(Contents())
    {
      if total >= limit {
        return Result.AtEnd;
      }
      if spooled {
        WriteSpool(x);
      } else if memoryCount < frames.Length {
        frames[memoryCount] := x;
        memoryCount := memoryCount + 1;
      } else {
        Spill();
        WriteSpool(x);
      }
      total := total + 1;
      result := Ok;
    }

    method Rewind()
      requires Valid()
      modifies `position, `readCursor
      ensures Valid() && Reading() && readCursor == 0 && Contents() == old(Contents())
    {
      position := 0;
      readCursor := 0;
    }

    /** One read through the segment handle. */
    method Read(capacity: nat) returns (result: Result, chunk: seq<Frame>)
      requires Valid() && Reading()
      modifies `position, `readCursor
      ensures Valid() && Reading() && Contents() == old(Contents())
      ensures |chunk| == Min(capacity, |Contents()| - old(readCursor))
      ensures readCursor == old(readCursor) + |chunk|
      ensures chunk == Contents()[old(readCursor)..readCursor]
      ensures result == if readCursor == |Contents()| then Result.AtEnd else Ok
    {
      if readCursor >= total {
        return Result.AtEnd, [];
      }
      var toRead := Min(capacity, total - readCursor);
      if toRead == 0 {
        return Ok, [];
      }
      if spooled {
        chunk := spool[position..position + toRead];
        position := position + toRead;
      } else {
        chunk := frames[readCursor..readCursor + toRead];
      }
      readCursor := readCursor + toRead;
      result := if readCursor >= total then Result.AtEnd else Ok;
    }

    /** Reads of any capacities, one after another, return the contents once, in order. */
    method ReadMany(capacities: seq<nat>) returns (read: seq<Frame>)
      requires Valid() && Reading() && readCursor == 0
      modifies `position, `readCursor
      ensures Valid() && Reading() && Contents() == old(Contents())
      ensures read == Contents()[..readCursor]
      ensures readCursor == Min(Sum(capacities), |Contents()|)
    {
      read := [];
      var i := 0;
      while i < |capacities|
        invariant i <= |capacities|
        invariant Valid() && Reading() && Contents() == old(Contents())
        invariant read == Contents()[..readCursor]
        invariant readCursor == Min(Sum(capacities[..i]), |Contents()|)
      {
        var result, chunk := Read(capacities[i]);
        read := read + chunk;
        assert capacities[..i + 1][..i] == capacities[..i];
        i := i + 1;
      }
      assert capacities[..i] == capacities;
    }

    method Reset()
      requires Valid()
      modifies this
      ensures Valid() && Contents() == [] && AtEnd() && !spooled
    {
      spooled, spool, position := false, [], 0;
      memoryCount, total, readCursor := 0, 0, 0;
    }
  }

  /** Ring positions are taken modulo the capacity and never run ahead by more than one lap. */
  function Wrap(k: nat, n: nat): (r: nat)
    requires k < 2 * n
    ensures r == if k < n then k else k - n
  {
    assert k >= n ==> k == 1 * n + (k - n) && k / n == 1;
    k % n
  }

  /** An array read from `cursor` on, wrapping at the end. */
  function Rotated(slots: seq<Frame>, cursor: nat): (r: seq<Frame>)
    requires cursor <= |slots|
    ensures |r| == |slots|
    ensures forall i :: 0 <= i < |r| ==>
              r[i] == slots[if cursor + i < |slots| then cursor + i else cursor + i - |slots|]
  {
    slots[cursor..] + slots[..cursor]
  }

  lemma AddToRoom(slots: seq<Frame>, cursor: nat, count: nat, x: Frame)
    requires cursor < |slots| && count < |slots|
    ensures var w := if cursor + count < |slots| then cursor + count else cursor + count - |slots|;
            Rotated(slots[w := x], cursor)[..count + 1] == Rotated(slots, cursor)[..count] + [x]
  {
  }

  lemma AddToFull(slots: seq<Frame>, cursor: nat, x: Frame)
    requires cursor < |slots|
    ensures var next := if cursor + 1 < |slots| then cursor + 1 else 0;
            Rotated(slots[cursor := x], next) == Rotated(slots, cursor)[1..] + [x]
  {
  }

  lemma NewestAdds(frames: seq<Frame>, x: Frame, capacity: nat)
    requires |frames| <= capacity
    ensures Newest(frames + [x], capacity) ==
            if |frames| < capacity then frames + [x] else if capacity == 0 then [] else frames[1..] + [x]
  {
  }

  /** Writing at the wrapped index adds to the ring, and drops the oldest frame when it is full. */
  lemma RingAdds(slots: seq<Frame>, cursor: nat, count: nat, x: Frame)
    requires cursor < |slots| && count <= |slots|
    ensures var was := Rotated(slots, cursor)[..count];
            Newest(was + [x], |slots|) ==
            if count < |slots| then Rotated(slots[Wrap(cursor + count, |slots|) := x], cursor)[..count + 1]
            else Rotated(slots[cursor := x], Wrap(cursor + 1, |slots|))[..count]
  {
    hide Rotated, Newest, Wrap;
    NewestAdds(Rotated(slots, cursor)[..count], x, |slots|);
    if count < |slots| {
      AddToRoom(slots, cursor, count, x);
    } else {
      AddToFull(slots, cursor, x);
      assert Rotated(slots, cursor)[..count] == Rotated(slots, cursor);
      var next := Wrap(cursor + 1, |slots|);
      assert Rotated(slots[cursor := x], next)[..count] == Rotated(slots[cursor := x], next);
    }
  }

  /** The newest quiet frames, in a fixed array that wraps around. */
  class Ring {
    const slots: array<Frame>
    var count: nat
    var cursor: nat

    ghost predicate Valid()
      reads this
    {
      count <= slots.Length && cursor <= slots.Length && (cursor == slots.Length ==> cursor == 0)
    }

    /** The first `count` slots of the array rotated to begin at the cursor. */
    ghost function Contents(): (r: seq<Frame>)
      requires Valid()
      reads this, slots
      ensures |r| == count
    {
      Rotated(slots[..], cursor)[..count]
    }

    constructor (capacity: nat)
      ensures Valid() && Contents() == [] && slots.Length == capacity && fresh(slots)
    {
      slots := new Frame[capacity](_ => 0.0);
      count, cursor := 0, 0;
    }

    method Add(x: Frame)
      requires Valid()
      modifies this, slots
      ensures Valid() && Contents() == Newest(old(Contents()) + [x], slots.Length)
    {
      hide Rotated, Newest, Wrap;
      if slots.Length == 0 {
        NewestAdds(Contents(), x, 0);
        return;
      }
      var writeIndex;
      ghost var was := slots[..];
      RingAdds(was, cursor, count, x);
      if count < slots.Length {
        writeIndex := Wrap(cursor + count, slots.Length);
        count := count + 1;
      } else {
        writeIndex := cursor;
        cursor := Wrap(cursor + 1, slots.Length);
      }
      slots[writeIndex] := x;
      assert slots[..] == was[writeIndex := x];
    }

    method At(i: nat) returns (x: Frame)
      requires Valid() && i < count
      ensures x == Contents()[i]
    {
      x := slots[Wrap(cursor + i, slots.Length)];
    }

    method Clear()
      modifies this
      ensures Valid() && Contents() == []
    {
      count, cursor := 0, 0;
    }
  }

  /** Appends the ring to an empty store. When it does not fit the store is filled and the ring kept. */
  method Drain(ring: Ring, store: FrameStore) returns (result: Result)
    requires ring.Valid() && store.Valid() && store.AtEnd() && store.Contents() == []
    requires ring.slots != store.frames
    modifies store, store.frames, ring
    ensures ring.Valid() && store.Valid() && store.AtEnd()
    ensures var was := old(ring.Contents());
            if |was| > store.limit
            then result == AtEnd && store.Contents() == was[..store.limit] && ring.Contents() == was
            else result == Ok && store.Contents() == was && ring.Contents() == []
  {
    hide Ring.Contents, FrameStore.Contents;
    ghost var was := ring.Contents();
    var i := 0;
    while i < ring.count
      invariant i <= ring.count == |was| && i <= store.limit
      invariant store.Valid() && store.AtEnd() && store.Contents() == was[..i]
      invariant ring.Valid() && ring.Contents() == was
    {
      var x := ring.At(i);
      result := store.Append(x);
      if result != Ok {
        return;
      }
      assert was[..i + 1] == was[..i] + [x];
      i := i + 1;
    }
    ring.Clear();
    result := Ok;
  }
}
