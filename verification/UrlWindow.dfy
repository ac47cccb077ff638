/** The bounded window of src/audio.c over an unbounded byte stream that arrives from the network. */
module UrlWindow {
  import opened Common

  const REWIND_BYTES: nat := 1048576
  const BUFFER_CHUNK: nat := 16384

  datatype Origin = SeekSet | SeekCur | OtherOrigin

  /** What one call into the transfer library does: data callbacks in order, then its verdict. */
  datatype Tick = Tick(chunks: seq<seq<Byte>>, done: bool, failed: bool, pollFails: bool)

  /** The bytes of a list of chunks. */
  function Join(chunks: seq<seq<Byte>>): seq<Byte> {
    if chunks == [] then [] else chunks[0] + Join(chunks[1..])
  }

  /** Every byte the network has still to deliver. */
  function Flat(script: seq<Tick>): seq<Byte> {
    if script == [] then [] else Join(script[0].chunks) + Flat(script[1..])
  }

  /** A network without failures that reports the end no earlier than with its last bytes. */
  predicate Smooth(script: seq<Tick>) {
    forall i :: 0 <= i < |script| ==>
      !script[i].failed && !script[i].pollFails && (script[i].done ==> i == |script| - 1)
  }

  /** Subtraction that stops at zero. */
  function Monus(a: nat, b: nat): nat { if a < b then 0 else a - b }

  /** A tick after which the code goes on waiting. */
  predicate Quiet(tick: Tick) { !tick.failed && !tick.done && !tick.pollFails }

  predicate AllQuiet(ticks: seq<Tick>) { forall i :: 0 <= i < |ticks| ==> Quiet(ticks[i]) }

  /** Doubling the capacity may ask for more memory than there is when `ahead` bytes are to be held from
      the cursor on, besides those that can be read again. */
  predicate Cramped(memory: nat, ahead: int) {
    memory < BUFFER_CHUNK || 2 * (REWIND_BYTES + ahead) > Min(memory, SIZE_MAX)
  }

  // ----- what passes between the network and the source -----

  datatype Net = Net(received: seq<Byte>, script: seq<Tick>, done: bool, failed: bool)

  predicate Follows(a: Net, b: Net) {
    |b.script| <= |a.script| && b.script == a.script[|a.script| - |b.script|..]
  }

  function Consumed(a: Net, b: Net): seq<Tick>
    requires Follows(a, b)
  {
    a.script[..|a.script| - |b.script|]
  }

  /** One call into the transfer library: a tick is taken, all its bytes are received unless it fails, and
      it fails only when the library does or memory is short. */
  predicate Turns(memory: nat, cursor: nat, a: Net, b: Net) {
    && !a.done && !a.failed
    && if a.script == [] then b == a.(done := true)
       else
         var tick := a.script[0];
         && b.script == a.script[1..] && b.done == tick.done
         && a.received <= b.received <= a.received + Join(tick.chunks)
         && (!b.failed ==> b.received == a.received + Join(tick.chunks))
         && (tick.failed ==> b.failed)
         && (b.failed ==> tick.failed || Cramped(memory, |a.received| + |Join(tick.chunks)| - cursor))
  }

  /** Waiting until the stream reaches `target` took the ticks `used`: each only as long as the target was
      not reached, and what they hold is received. The stream ended only because the last of them said
      so or none was left, and failed only because the last of them did, waiting for more did, or memory
      was short. */
  predicate Took(memory: nat, cursor: nat, target: nat, a: Net, b: Net, used: seq<Tick>) {
    && a.received <= b.received <= a.received + Flat(used)
    && (!b.failed ==> b.received == a.received + Flat(used))
    && (used == [] ==> b.failed == a.failed && (b.done ==> a.done || b.script == []))
    && (used != [] ==>
          var init, last := used[..|used| - 1], used[|used| - 1];
          && AllQuiet(init) && Min(|a.received| + |Flat(init)|, SIZE_MAX) < target
          && (last.failed ==> b.failed) && (last.done ==> b.done)
          && (b.done ==> last.done || (b.script == [] && Quiet(last)))
          && (b.failed ==>
                || last.failed || (last.pollFails && Min(|b.received|, SIZE_MAX) < target)
                || Cramped(memory, |a.received| + |Flat(used)| - cursor)))
  }

  /** Ticks are taken from the front, and a stream that has ended or failed stays as it is. */
  predicate Runs(memory: nat, cursor: nat, target: nat, a: Net, b: Net) {
    Follows(a, b) && (a.done || a.failed ==> b == a) && Took(memory, cursor, target, a, b, Consumed(a, b))
  }

  lemma {:induction false} FlatAppend(a: seq<Tick>, b: seq<Tick>)
    ensures Flat(a + b) == Flat(a) + Flat(b)
    decreases |a|
  {
    if a == [] {
      assert a + b == b;
    } else {
      assert (a + b)[1..] == a[1..] + b;
      FlatAppend(a[1..], b);
    }
  }

  lemma FlatOne(tick: Tick)
    ensures Flat([tick]) == Join(tick.chunks)
  {
    assert [tick][1..] == [];
  }

  lemma RunStarts(memory: nat, cursor: nat, target: nat, a: Net)
    ensures Runs(memory, cursor, target, a, a) && Follows(a, a) && Consumed(a, a) == [] && AllQuiet([])
  {
    assert a.script[0..] == a.script;
  }

  lemma FollowsOne(a: Net, b: Net, c: Net)
    requires Follows(a, b) && b.script != [] && c.script == b.script[1..]
    ensures Follows(a, c) && Consumed(a, c) == Consumed(a, b) + [b.script[0]]
  {
  }

  /** One more tick, after which waiting may fail. */
  lemma TookOne(memory: nat, cursor: nat, target: nat, a: Net, b: Net, c: Net, d: Net, used: seq<Tick>)
    requires Took(memory, cursor, target, a, b, used) && AllQuiet(used) && b.script != []
    requires Turns(memory, cursor, b, c) && Min(|b.received|, SIZE_MAX) < target
    requires d == c || (d == c.(failed := true) && b.script[0].pollFails && Min(|c.received|, SIZE_MAX) < target)
    ensures Took(memory, cursor, target, a, d, used + [b.script[0]])
  {
    hide Join, Flat, Cramped, AllQuiet;
    var tick := b.script[0];
    var more := used + [tick];
    FlatAppend(used, [tick]);
    FlatOne(tick);
    assert more[..|more| - 1] == used && more[|more| - 1] == tick;
    assert b.received == a.received + Flat(used);
    assert a.received + Flat(more) == b.received + Join(tick.chunks);
  }

  lemma QuietOne(used: seq<Tick>, tick: Tick)
    requires AllQuiet(used) && Quiet(tick)
    ensures AllQuiet(used + [tick])
  {
  }

  /** A run goes on by one call, after which waiting may fail. */
  lemma RunGoesOn(memory: nat, cursor: nat, target: nat, a: Net, b: Net, c: Net, d: Net)
    requires Runs(memory, cursor, target, a, b) && AllQuiet(Consumed(a, b)) && !a.done && !a.failed
    requires Turns(memory, cursor, b, c) && Min(|b.received|, SIZE_MAX) < target
    requires d == c ||
             (&& d == c.(failed := true) && b.script != [] && b.script[0].pollFails
              && Min(|c.received|, SIZE_MAX) < target)
    ensures Runs(memory, cursor, target, a, d) && Follows(a, d)
    ensures !d.done && !d.failed && b.script != [] && !b.script[0].pollFails ==> AllQuiet(Consumed(a, d))
    ensures |c.script| <= |b.script| && (|c.script| < |b.script| || c.done)
  {
    hide Join, Flat, Cramped, AllQuiet, Took;
    var used := Consumed(a, b);
    if b.script != [] {
      FollowsOne(a, b, d);
      TookOne(memory, cursor, target, a, b, c, d, used);
      if Quiet(b.script[0]) {
        QuietOne(used, b.script[0]);
      }
    } else {
      TookEnd(memory, cursor, target, a, b, d, used);
    }
  }

  lemma TookEnd(memory: nat, cursor: nat, target: nat, a: Net, b: Net, d: Net, used: seq<Tick>)
    requires Took(memory, cursor, target, a, b, used) && AllQuiet(used) && b.script == [] && !b.failed
    requires d == b.(done := true)
    ensures Took(memory, cursor, target, a, d, used)
  {
    hide Join, Flat, Cramped;
  }

  class UrlSource {
    /** The largest buffer the system can provide. */
    const memory: nat
    var buffer: array<Byte>
    var base: nat
    var size: nat
    var cursor: nat
    var done: bool
    var failed: bool
    /** The network still to come. */
    var script: seq<Tick>
    /** Every byte accepted so far, and the largest cursor ever reached. */
    ghost var received: seq<Byte>
    ghost var furthest: nat

    /** The buffer is the tail of the stream from `base` on and the cursor lies in it; nothing within
        the rewind distance of the furthest cursor has been given up. */
    ghost predicate Valid()
      reads this, buffer
    {
      && size <= buffer.Length
      && |received| == base + size
      && buffer[..size] == received[base..]
      && base <= cursor <= base + size
      && cursor <= furthest <= |received| && cursor <= SIZE_MAX
      && base <= Monus(furthest, REWIND_BYTES)
    }

    /** Bytes may have arrived, and nothing else the caller can see changed. */
    twostate predicate OnlyReceives()
      reads this, buffer
    {
      && cursor == old(cursor) && furthest == old(furthest) && old(base) <= base
      && (buffer == old(buffer) || fresh(buffer))
    }

    ghost function Network(): Net
      reads this
    {
      Net(received, script, done, failed)
    }

    constructor (memory: nat, script: seq<Tick>)
      ensures Valid() && received == [] && cursor == 0 && !failed && !done && fresh(buffer)
      ensures this.memory == memory && this.script == script && furthest == 0
    {
      this.memory, this.script := memory, script;
      buffer := new Byte[0];
      base, size, cursor, done, failed := 0, 0, 0, false, false;
      received, furthest := [], 0;
    }

    /** End of the buffered data, saturating. */
    function BufferEnd(): (end: nat)
      reads this
      ensures end <= SIZE_MAX
    {
      Min(base + size, SIZE_MAX)
    }

    /** Gives up what lies more than the rewind distance behind the cursor. */
    method Discard()
      requires Valid()
      modifies this`base, this`size, buffer
      ensures Valid()
      ensures base == Max(old(base), Monus(cursor, REWIND_BYTES))
    {
      if cursor <= base {
        return;
      }
      var keepFrom := if cursor > REWIND_BYTES then cursor - REWIND_BYTES else 0;
      if keepFrom <= base {
        return;
      }
      var discard := keepFrom - base;
      // The source marks the stream failed when more would be discarded than is buffered.
      assert discard <= size;
      forall i | 0 <= i < size - discard {
        buffer[i] := buffer[i + discard];
      }
      base := base + discard;
      size := size - discard;
    }

    /** The capacity after doubling until `needed` fits, unless that overflows. */
    method NextCapacity(needed: nat) returns (ok: bool, next: nat)
      requires needed <= SIZE_MAX
      ensures ok ==> next >= needed && next >= buffer.Length
      ensures ok && next > Max(BUFFER_CHUNK, buffer.Length) ==> next < 2 * needed
      ensures !ok ==> needed > SIZE_MAX / 2
    {
      next := if buffer.Length == 0 then BUFFER_CHUNK else buffer.Length;
      while next < needed
        invariant next > 0 && next >= buffer.Length
        invariant next > Max(BUFFER_CHUNK, buffer.Length) ==> next < 2 * needed
        decreases needed - next
      {
        if next > SIZE_MAX / 2 {
          return false, next;
        }
        next := next * 2;
      }
      ok := true;
    }

    method Grow(capacity: nat)
      requires Valid() && capacity >= buffer.Length
      modifies this`buffer
      ensures Valid() && fresh(buffer) && buffer.Length == capacity
    {
      var grown := new Byte[capacity];
      forall i | 0 <= i < size {
        grown[i] := buffer[i];
      }
      assert grown[..size] == buffer[..size];
      buffer := grown;
    }

    method MakeRoom(needed: nat) returns (ok: bool)
      requires Valid() && needed <= SIZE_MAX
      modifies this`buffer
      ensures Valid() && (buffer == old(buffer) || fresh(buffer)) && (ok ==> needed <= buffer.Length)
      ensures !ok ==> needed > old(buffer.Length)
      ensures !ok ==> memory < BUFFER_CHUNK || 2 * needed > Min(memory, SIZE_MAX)
    {
      ok := true;
      if needed > buffer.Length {
        var next;
        ok, next := NextCapacity(needed);
        if !ok || next > memory {
          return false;
        }
        Grow(next);
      }
    }

    method Append(chunk: seq<Byte>)
      requires Valid() && size + |chunk| <= buffer.Length
      modifies this`size, this`received, buffer
      ensures Valid() && received == old(received) + chunk
    {
      ghost var was := buffer[..size];
      forall i | 0 <= i < |chunk| {
        buffer[size + i] := chunk[i];
      }
      assert buffer[..size + |chunk|] == was + chunk;
      size := size + |chunk|;
      received := received + chunk;
    }

    /** The data callback: all of the chunk is accepted or the stream has failed. */
    method Write(chunk: seq<Byte>) returns (written: nat)
      requires Valid()
      modifies this, buffer
      ensures Valid() && OnlyReceives() && script == old(script) && done == old(done) && (old(failed) ==> failed)
      ensures written == |chunk| || (written == 0 && failed)
      ensures received == old(received) + chunk[..written]
      ensures failed && !old(failed) ==>
                written == 0 && chunk != [] && Cramped(memory, |old(received)| + |chunk| - cursor)
    {
      if |chunk| == 0 {
        return 0;
      }
      Discard();
      if failed {
        return 0;
      }
      if size > SIZE_MAX - |chunk| {
        failed := true;
        return 0;
      }
      var needed := size + |chunk|;
      var roomy := MakeRoom(needed);
      if !roomy {
        failed := true;
        return 0;
      }
      Append(chunk);
      written := |chunk|;
    }

    /** The data callbacks of one call into the transfer library. */
    method Deliver(chunks: seq<seq<Byte>>)
      requires Valid() && !failed
      modifies this, buffer
      ensures Valid() && OnlyReceives() && script == old(script) && done == old(done)
      ensures old(received) <= received <= old(received) + Join(chunks)
      ensures if failed then Cramped(memory, |old(received)| + |Join(chunks)| - cursor)
              else received == old(received) + Join(chunks)
    {
      hide Valid, Join;
      ghost var all := old(received) + Join(chunks);
      var i := 0;
      assert chunks[i..] == chunks;
      while i < |chunks| && !failed
        invariant i <= |chunks| && Valid() && OnlyReceives() && script == old(script) && done == old(done)
        invariant old(received) <= received <= all && (!failed ==> received + Join(chunks[i..]) == all)
        invariant failed ==> Cramped(memory, |all| - cursor)
      {
        JoinStep(chunks, i);
        var written := Write(chunks[i]);
        i := i + 1;
      }
      JoinStep(chunks, i);
    }

    /** One call into the transfer library. */
    method Progress()
      requires Valid() && !failed && !done
      modifies this, buffer
      ensures Valid() && OnlyReceives() && Turns(memory, cursor, old(Network()), Network())
    {
      hide Join;
      if script == [] {
        done := true;
        return;
      }
      var tick := script[0];
      script := script[1..];
      Deliver(tick.chunks);
      failed := failed || tick.failed;
      done := tick.done;
    }

    /** Downloads until `target` is buffered, the stream ends or it fails. */
    method DownloadUntil(target: nat) returns (ok: bool)
      requires Valid()
      modifies this, buffer
      ensures Valid() && OnlyReceives() && Runs(memory, cursor, target, old(Network()), Network())
      ensures ok == !failed && (ok ==> done || BufferEnd() >= target)
    {
      hide Runs, Turns, AllQuiet;
      ghost var start := Network();
      RunStarts(memory, cursor, target, start);
      while BufferEnd() < target && !done && !failed
        invariant Valid() && OnlyReceives() && Follows(start, Network())
        invariant Runs(memory, cursor, target, start, Network())
        invariant start.done ==> done
        invariant start.failed ==> failed
        invariant BufferEnd() < target && !done && !failed ==> AllQuiet(Consumed(start, Network()))
        decreases |script|, if done then 0 else 1
      {
        ghost var b := Network();
        var pollFails := script != [] && script[0].pollFails;
        Progress();
        ghost var c := Network();
        if BufferEnd() < target && !done && !failed && pollFails {
          failed := true;
        }
        RunGoesOn(memory, cursor, target, start, b, c, Network());
      }
      ok := !failed;
    }

    method Peek(n: nat) returns (bytes: seq<Byte>)
      requires Valid() && cursor + n <= base + size
      ensures |bytes| == n && bytes == received[cursor..cursor + n]
    {
      var offset := cursor - base;
      bytes := buffer[offset..offset + n];
      WindowSlice(buffer[..size], received, base, offset, n);
      assert bytes == buffer[..size][offset..offset + n];
    }

    /** Copies what is available at the cursor, at most `n` bytes, and moves the cursor past it. */
    method Take(n: nat) returns (bytes: seq<Byte>)
      requires Valid()
      modifies this`cursor, this`furthest, this`base, this`size, buffer
      ensures Valid()
      ensures |bytes| == Min(n, Monus(Min(|received|, SIZE_MAX), old(cursor)))
      ensures bytes == received[old(cursor)..old(cursor) + |bytes|]
      ensures cursor == old(cursor) + |bytes|
      ensures bytes != [] ==> cursor - base <= 1048576
      ensures furthest == Max(old(furthest), cursor) && old(base) <= base
    {
      if cursor < base || cursor >= BufferEnd() {
        return [];
      }
      var toCopy := Min(BufferEnd() - cursor, n);
      bytes := Peek(toCopy);
      cursor := cursor + toCopy;
      furthest := Max(furthest, cursor);
      Discard();
    }

    /** The read callback: waits for all of `n`, then returns the stream at the cursor. */
    method Read(n: nat) returns (bytes: seq<Byte>)
      requires Valid()
      modifies this, buffer
      ensures Valid() && Steps(memory, ReadAll(n), old(cursor), old(Network()), Network())
      ensures cursor == old(cursor) + |bytes| && furthest == Max(old(furthest), cursor)
      ensures |bytes| <= n && bytes == received[old(cursor)..old(cursor) + |bytes|]
      ensures !failed ==> |bytes| == Min(n, Monus(Min(|received|, SIZE_MAX), old(cursor)))
      ensures |bytes| < n ==> failed || done
      ensures failed ==> bytes == []
      ensures bytes != [] ==> cursor - base <= 1048576
      ensures buffer == old(buffer) || fresh(buffer)
    {
      hide Runs;
      if n == 0 {
        return [];
      }
      if cursor > SIZE_MAX - n {
        failed := true;
        return [];
      }
      var ok := DownloadUntil(cursor + n);
      if !ok {
        return [];
      }
      bytes := Take(n);
    }

    method AwaitData()
      requires Valid()
      modifies this, buffer
      ensures Valid() && OnlyReceives() && Runs(memory, cursor, cursor + 1, old(Network()), Network())
      ensures done || failed || cursor < BufferEnd()
    {
      hide Runs, Turns, AllQuiet;
      ghost var start := Network();
      RunStarts(memory, cursor, cursor + 1, start);
      while !done && !failed && cursor >= BufferEnd()
        invariant Valid() && OnlyReceives() && Follows(start, Network())
        invariant Runs(memory, cursor, cursor + 1, start, Network())
        invariant start.done ==> done
        invariant start.failed ==> failed
        invariant cursor >= BufferEnd() && !done && !failed ==> AllQuiet(Consumed(start, Network()))
        decreases |script|, if done then 0 else 1
      {
        ghost var b := Network();
        var pollFails := script != [] && script[0].pollFails;
        Progress();
        ghost var c := Network();
        if cursor >= BufferEnd() && !failed && pollFails {
          failed := true;
        }
        RunGoesOn(memory, cursor, cursor + 1, start, b, c, Network());
      }
    }

    /** The MP3 read callback: waits for any data, and still hands out what is buffered after a failure. */
    method ReadAvailable(n: nat) returns (bytes: seq<Byte>)
      requires Valid()
      modifies this, buffer
      ensures Valid() && Steps(memory, ReadSome(n), old(cursor), old(Network()), Network())
      ensures cursor == old(cursor) + |bytes| && furthest == Max(old(furthest), cursor)
      ensures bytes == received[old(cursor)..old(cursor) + |bytes|]
      ensures |bytes| == Min(n, Monus(Min(|received|, SIZE_MAX), old(cursor)))
      ensures bytes == [] && n > 0 ==> done || failed
      ensures bytes != [] ==> cursor - base <= 1048576
      ensures buffer == old(buffer) || fresh(buffer)
    {
      hide Runs;
      if n == 0 {
        return [];
      }
      AwaitData();
      bytes := Take(n);
    }

    /** The seek callback. It succeeds exactly on targets inside the window, in particular on every
        target from the rewind distance behind the furthest cursor up to the end of what was received. */
    method Seek(offset: int, origin: Origin) returns (ok: bool)
      requires Valid() && -1 - LONG_MAX <= offset <= LONG_MAX
      modifies this, buffer
      ensures Valid() && Steps(memory, SeekTo(offset, origin), old(cursor), old(Network()), Network())
      ensures ok ==> origin != OtherOrigin && cursor == offset + if origin == SeekCur then old(cursor) else 0
      ensures !ok ==> cursor == old(cursor)
      ensures var target := offset + if origin == SeekCur then old(cursor) else 0;
              ok <==> (&& !failed && origin != OtherOrigin && 0 <= target <= LONG_MAX
                       && (origin == SeekCur ==> old(cursor) <= LONG_MAX) && base <= target <= BufferEnd())
      ensures var target := offset + if origin == SeekCur then old(cursor) else 0;
              (&& !failed && origin != OtherOrigin && target <= LONG_MAX
               && Monus(old(furthest), REWIND_BYTES) <= target <= Min(|received|, SIZE_MAX)
               && (origin == SeekCur ==> old(cursor) <= LONG_MAX)) ==>
                ok
      ensures var target := offset + if origin == SeekCur then old(cursor) else 0;
              (&& !failed && origin != OtherOrigin && 0 <= target <= LONG_MAX
               && (origin == SeekCur ==> old(cursor) <= LONG_MAX)) ==>
                done || target <= BufferEnd()
      ensures furthest == Max(old(furthest), cursor)
      ensures buffer == old(buffer) || fresh(buffer)
    {
      hide Runs;
      if origin == OtherOrigin || (origin == SeekCur && cursor > LONG_MAX) {
        return false;
      }
      var from := if origin == SeekCur then cursor else 0;
      if (offset > 0 && from > LONG_MAX - offset) || from + offset < 0 {
        return false;
      }
      var target := from + offset;
      var reached := DownloadUntil(target);
      if !reached || target < base || target > BufferEnd() {
        return false;
      }
      cursor := target;
      furthest := Max(furthest, cursor);
      return true;
    }

    /** One callback, with everything the caller could observe of it. */
    method Do(call: Call) returns (reply: Reply)
      requires Valid() && InRange(call)
      modifies this, buffer
      ensures Valid() && Steps(memory, call, old(cursor), old(Network()), Network())
      ensures Reports(reply, cursor, Network()) && furthest == Max(old(furthest), cursor)
      ensures Answers(call, old(cursor), old(furthest), reply, received)
      ensures buffer == old(buffer) || fresh(buffer)
    {
      hide Valid, Steps;
      var bytes: seq<Byte>, ok := [], true;
      match call {
        case ReadAll(n) => bytes := Read(n);
        case ReadSome(n) => bytes := ReadAvailable(n);
        case SeekTo(offset, origin) => ok := Seek(offset, origin);
      }
      CursorIsReceived();
      reply := Reply(bytes, ok, cursor, done, failed);
    }

    /** Any interleaving of the callbacks. `nets` are the states of the network between the calls: each call
        takes from it what it needs and no more, every reply answers its call from what was received by
        then and reports the end and failures as they are, and every failure has its cause. As long as
        the network is smooth and memory suffices for the rewind distance, what a call asks for and one
        burst, every reply is the one a file with the whole stream would give, however long that is. */
    method Session(calls: seq<Call>) returns (replies: seq<Reply>, at: seq<nat>, ghost nets: seq<Net>)
      requires Valid() && forall k :: 0 <= k < |calls| ==> InRange(calls[k])
      modifies this, buffer
      ensures Valid() && Logged(memory, calls, replies, at, nets, old(furthest))
      ensures |replies| == |calls| && at[0] == old(cursor) && at[|calls|] == cursor
      ensures nets[0] == old(Network()) && nets[|calls|] == Network()
      ensures forall ahead: nat, burst: nat ::
                Suffices(memory, nets[0], ahead, burst) && AllModest(calls, at, ahead) ==>
                  AllPlain(calls, replies, at, old(furthest), old(received) + Flat(old(script)))
    {
      hide Valid, Steps, Answers, Plain, Flat, Peak, Max, Suffices;
      replies, at, nets := [], [cursor], [Network()];
      var i := 0;
      CursorIsReceived();
      PeakStarts(cursor, furthest);
      while i < |calls|
        invariant i <= |calls| && Valid() && (buffer == old(buffer) || fresh(buffer))
        invariant |replies| == i && Logged(memory, calls, replies, at, nets, old(furthest))
        invariant at[0] == old(cursor) && at[i] == cursor && furthest == Peak(old(furthest), at)
        invariant nets[0] == old(Network()) && nets[i] == Network()
      {
        CursorIsReceived();
        var reply := Do(calls[i]);
        LogSnoc(memory, calls, replies, at, nets, old(furthest), reply, Network());
        replies, at, nets := replies + [reply], at + [cursor], nets + [Network()];
        i := i + 1;
      }
      forall ahead: nat, burst: nat | Suffices(memory, nets[0], ahead, burst) && AllModest(calls, at, ahead)
        ensures AllPlain(calls, replies, at, old(furthest), old(received) + Flat(old(script)))
      {
        LogIsPlain(memory, calls, replies, at, nets, old(furthest), ahead, burst);
      }
    }

    lemma CursorIsReceived()
      requires Valid()
      ensures cursor <= furthest <= |received| == base + size
    {
    }
  }

  lemma JoinStep(chunks: seq<seq<Byte>>, i: nat)
    requires i <= |chunks|
    ensures Join(chunks[i..]) == if i == |chunks| then [] else chunks[i] + Join(chunks[i + 1..])
  {
    if i < |chunks| {
      assert chunks[i..][1..] == chunks[i + 1..];
    }
  }

  lemma WindowSlice(window: seq<Byte>, stream: seq<Byte>, base: nat, offset: nat, n: nat)
    requires base <= |stream| && window == stream[base..] && offset + n <= |window|
    ensures window[offset..offset + n] == stream[base + offset..base + offset + n]
  {
  }

  datatype Call = ReadAll(n: nat) | ReadSome(n: nat) | SeekTo(offset: int, origin: Origin)

  datatype Reply = Reply(bytes: seq<Byte>, ok: bool, cursor: nat, done: bool, failed: bool)

  /** A seek offset is a long. */
  predicate InRange(call: Call) { call.SeekTo? ==> -1 - LONG_MAX <= call.offset <= LONG_MAX }

  function Target(call: Call, from: nat): int
    requires call.SeekTo?
  {
    call.offset + if call.origin == SeekCur then from else 0
  }

  /** A seek the interface can express. */
  predicate Expressible(call: Call, from: nat)
    requires call.SeekTo?
  {
    call.origin != OtherOrigin && 0 <= Target(call, from) <= LONG_MAX && (call.origin == SeekCur ==> from <= LONG_MAX)
  }

  /** What a call does to the network: it waits for what it asks for. A read past the end of the address
      space fails at once, a seek that cannot be expressed does nothing. */
  predicate Steps(memory: nat, call: Call, from: nat, a: Net, b: Net) {
    match call
    case ReadAll(n) =>
      if n == 0 then b == a
      else if from + n > SIZE_MAX then b == a.(failed := true)
      else Runs(memory, from, from + n, a, b)
    case ReadSome(n) => if n == 0 then b == a else Runs(memory, from, from + 1, a, b)
    case SeekTo(_, _) => if Expressible(call, from) then Runs(memory, from, Target(call, from), a, b) else b == a
  }

  /** The reply shows position, end and failure as they are. */
  predicate Reports(reply: Reply, cursor: nat, net: Net) {
    reply.cursor == cursor && reply.done == net.done && reply.failed == net.failed
  }

  /** The reply to a call made at position `from`, after positions up to `furthest`, when `stream` has been
      received: a read returns the bytes there, and fewer than it could only at the end or on failure;
      a seek goes to its target or nowhere, and reaches everything from the rewind distance behind
      `furthest` up to the received end, unless the stream has failed. */
  predicate Answers(call: Call, from: nat, furthest: nat, reply: Reply, stream: seq<Byte>) {
    && reply.cursor <= |stream|
    && match call
       case ReadAll(n) =>
         && reply.cursor == from + |reply.bytes| && |reply.bytes| <= n && reply.bytes == stream[from..reply.cursor]
         && (|reply.bytes| < n ==> reply.done || reply.failed) && (reply.failed ==> reply.bytes == [])
         && (!reply.failed ==> |reply.bytes| == Min(n, Monus(Min(|stream|, SIZE_MAX), from)))
       case ReadSome(n) =>
         && reply.cursor == from + |reply.bytes| && |reply.bytes| <= n && reply.bytes == stream[from..reply.cursor]
         && (reply.bytes == [] && n > 0 ==> reply.done || reply.failed)
         && |reply.bytes| == Min(n, Monus(Min(|stream|, SIZE_MAX), from))
       case SeekTo(_, _) =>
         && reply.bytes == []
         && (!reply.ok ==> reply.cursor == from)
         && (reply.ok ==> Expressible(call, from) && reply.cursor == Target(call, from) && !reply.failed)
         && (!reply.failed && Expressible(call, from) ==> reply.done || Target(call, from) <= |stream|)
         && (!reply.failed && Expressible(call, from) &&
             furthest - 1048576 <= Target(call, from) <= Min(|stream|, SIZE_MAX) ==>
               reply.ok)
  }

  // ----- any number of calls -----

  /** The largest position so far. */
  function Peak(start: nat, at: seq<nat>): nat {
    if at == [] then start else Max(Peak(start, at[..|at| - 1]), at[|at| - 1])
  }

  /** Call `k` was made at position `at[k]` with the network in state `nets[k]`. */
  predicate Logged(memory: nat, calls: seq<Call>, replies: seq<Reply>, at: seq<nat>, nets: seq<Net>, start: nat) {
    && |replies| <= |calls| && |at| == |nets| == |replies| + 1
    && forall k :: 0 <= k < |replies| ==>
         && at[k] <= |nets[k].received|
         && Reports(replies[k], at[k + 1], nets[k + 1])
         && Steps(memory, calls[k], at[k], nets[k], nets[k + 1])
         && Answers(calls[k], at[k], Peak(start, at[..k + 1]), replies[k], nets[k + 1].received)
  }

  /** The reply a file that holds `whole` would give, but that it cannot rewind by more than the rewind
      distance for certain. */
  predicate Plain(call: Call, from: nat, furthest: nat, reply: Reply, whole: seq<Byte>) {
    match call
    case ReadAll(n) =>
      from <= |whole| && reply.bytes == whole[from..Min(from + n, |whole|)] && reply.cursor == from + |reply.bytes|
    case ReadSome(n) =>
      && from <= reply.cursor <= Min(from + n, |whole|) && reply.bytes == whole[from..reply.cursor]
      && (n > 0 && from < |whole| ==> reply.bytes != [])
    case SeekTo(_, _) =>
      && reply.cursor == (if reply.ok then Target(call, from) else from)
      && (reply.ok ==> Expressible(call, from) && Target(call, from) <= |whole|)
      && (Expressible(call, from) && furthest - 1048576 <= Target(call, from) <= |whole| ==> reply.ok)
  }

  predicate AllPlain(calls: seq<Call>, replies: seq<Reply>, at: seq<nat>, start: nat, whole: seq<Byte>) {
    && |replies| <= |calls| && |at| == |replies| + 1
    && forall k :: 0 <= k < |replies| ==> Plain(calls[k], at[k], Peak(start, at[..k + 1]), replies[k], whole)
  }

  /** The call asks for at most `ahead` bytes from the cursor on. */
  predicate Modest(call: Call, from: nat, ahead: nat) {
    match call
    case ReadAll(n) => n <= ahead
    case ReadSome(n) => 1 <= ahead
    case SeekTo(_, _) => Target(call, from) <= from + ahead
  }

  predicate AllModest(calls: seq<Call>, at: seq<nat>, ahead: nat)
    requires |calls| < |at|
  {
    forall k :: 0 <= k < |calls| ==> Modest(calls[k], at[k], ahead)
  }

  /** A smooth network in which no tick brings more than `burst` bytes and that reports the end at the end. */
  predicate Eased(net: Net, burst: nat) {
    && Smooth(net.script) && !net.failed && (net.done ==> net.script == [])
    && forall i :: 0 <= i < |net.script| ==> |Join(net.script[i].chunks)| <= burst
  }

  /** Memory for the rewind distance, what is asked for and one burst, and positions that can be expressed;
      the length of the stream does not matter otherwise. */
  predicate Suffices(memory: nat, net: Net, ahead: nat, burst: nat) {
    && Eased(net, burst) && !Cramped(memory, ahead + burst)
    && |net.received| + |Flat(net.script)| + ahead <= SIZE_MAX
  }

  /** An answer from what was received is the plain one when nothing failed and the end is the end. */
  lemma PlainAnswers(call: Call, from: nat, furthest: nat, reply: Reply, stream: seq<Byte>, whole: seq<Byte>)
    requires Answers(call, from, furthest, reply, stream) && stream <= whole && |whole| <= SIZE_MAX
    requires from <= |stream| && !reply.failed && (reply.done ==> stream == whole)
    ensures Plain(call, from, furthest, reply, whole)
  {
    if !call.SeekTo? {
      assert stream[from..reply.cursor] == whole[from..reply.cursor];
    }
  }

  lemma MoreIsCramped(memory: nat, less: int, more: int)
    requires less <= more && Cramped(memory, less)
    ensures Cramped(memory, more)
  {
  }

  /** What a run holds from the cursor on is at most what is waited for and one burst. */
  lemma RunHolds(memory: nat, from: nat, target: nat, a: Net, b: Net, ahead: nat, burst: nat)
    requires Runs(memory, from, target, a, b) && target <= from + ahead && Consumed(a, b) != []
    requires Eased(a, burst) && |a.received| + |Flat(a.script)| <= SIZE_MAX
    ensures |a.received| + |Flat(Consumed(a, b))| - from <= ahead + burst
  {
    hide Join, Flat, Cramped;
    var used := Consumed(a, b);
    var init, last := used[..|used| - 1], used[|used| - 1];
    assert used == init + [last] && a.script == init + a.script[|used| - 1..];
    FlatAppend(init, [last]);
    FlatAppend(init, a.script[|used| - 1..]);
    FlatOne(last);
    assert last == a.script[|used| - 1];
  }

  lemma EasedAfter(a: Net, b: Net, burst: nat)
    requires Eased(a, burst) && Follows(a, b) && !b.failed && (b.done ==> b.script == [])
    ensures Eased(b, burst)
  {
    hide Join;
    assert forall i :: 0 <= i < |b.script| ==> b.script[i] == a.script[|a.script| - |b.script| + i];
  }

  /** Waiting on a smooth network does not fail when there is memory for what is waited for and one burst. */
  lemma EasedRuns(memory: nat, from: nat, target: nat, a: Net, b: Net, ahead: nat, burst: nat)
    requires Suffices(memory, a, ahead, burst) && Runs(memory, from, target, a, b) && target <= from + ahead
    ensures Suffices(memory, b, ahead, burst) && b.received + Flat(b.script) == a.received + Flat(a.script)
    ensures a.received <= b.received
  {
    hide Join, Flat, Cramped;
    var used := Consumed(a, b);
    assert a.script == used + b.script;
    FlatAppend(used, b.script);
    if used != [] {
      var last := used[|used| - 1];
      assert last == a.script[|used| - 1];
      if b.failed {
        RunHolds(memory, from, target, a, b, ahead, burst);
        MoreIsCramped(memory, |a.received| + |Flat(used)| - from, ahead + burst);
        assert false;
      }
      assert b.done ==> b.script == [];
    }
    EasedAfter(a, b, burst);
    assert a.received + Flat(used) + Flat(b.script) == a.received + Flat(a.script);
  }

  lemma SufficesReach(memory: nat, net: Net, from: nat, ahead: nat, burst: nat)
    requires Suffices(memory, net, ahead, burst) && from <= |net.received|
    ensures from + ahead <= SIZE_MAX
  {
  }

  lemma EasedSteps(memory: nat, call: Call, from: nat, a: Net, b: Net, ahead: nat, burst: nat)
    requires Suffices(memory, a, ahead, burst) && Steps(memory, call, from, a, b) && Modest(call, from, ahead)
    requires from <= |a.received|
    ensures Suffices(memory, b, ahead, burst) && b.received + Flat(b.script) == a.received + Flat(a.script)
    ensures a.received <= b.received
  {
    hide Runs, Suffices, Flat;
    assert from + ahead <= SIZE_MAX by { SufficesReach(memory, a, from, ahead, burst); }
    match call {
      case ReadAll(n) => if n > 0 { EasedRuns(memory, from, from + n, a, b, ahead, burst); }
      case ReadSome(n) => if n > 0 { EasedRuns(memory, from, from + 1, a, b, ahead, burst); }
      case SeekTo(_, _) =>
        if Expressible(call, from) {
          EasedRuns(memory, from, Target(call, from), a, b, ahead, burst);
        }
    }
  }

  lemma {:induction false} NetsStayEased(memory: nat, calls: seq<Call>, replies: seq<Reply>, at: seq<nat>,
                                         nets: seq<Net>, start: nat, ahead: nat, burst: nat, k: nat)
    requires Logged(memory, calls, replies, at, nets, start) && |replies| == |calls| && k <= |calls|
    requires Suffices(memory, nets[0], ahead, burst) && AllModest(calls, at, ahead)
    ensures Suffices(memory, nets[k], ahead, burst)
    ensures nets[k].received + Flat(nets[k].script) == nets[0].received + Flat(nets[0].script)
  {
    hide Steps, Answers, Suffices, Flat;
    if k > 0 {
      NetsStayEased(memory, calls, replies, at, nets, start, ahead, burst, k - 1);
      EasedSteps(memory, calls[k - 1], at[k - 1], nets[k - 1], nets[k], ahead, burst);
    }
  }

  /** The replies of any number of calls are the plain ones. */
  lemma LogIsPlain(memory: nat, calls: seq<Call>, replies: seq<Reply>, at: seq<nat>, nets: seq<Net>, start: nat,
                   ahead: nat, burst: nat)
    requires Logged(memory, calls, replies, at, nets, start) && |replies| == |calls|
    requires Suffices(memory, nets[0], ahead, burst) && AllModest(calls, at, ahead)
    ensures AllPlain(calls, replies, at, start, nets[0].received + Flat(nets[0].script))
  {
    hide Steps, Answers, Plain, Cramped;
    var whole := nets[0].received + Flat(nets[0].script);
    forall k | 0 <= k < |replies|
      ensures Plain(calls[k], at[k], Peak(start, at[..k + 1]), replies[k], whole)
    {
      NetsStayEased(memory, calls, replies, at, nets, start, ahead, burst, k);
      NetsStayEased(memory, calls, replies, at, nets, start, ahead, burst, k + 1);
      EasedSteps(memory, calls[k], at[k], nets[k], nets[k + 1], ahead, burst);
      PlainAnswers(calls[k], at[k], Peak(start, at[..k + 1]), replies[k], nets[k + 1].received, whole);
    }
  }

  lemma PeakStarts(cursor: nat, furthest: nat)
    requires cursor <= furthest
    ensures Peak(furthest, [cursor]) == furthest
  {
    assert [cursor][..0] == [];
  }

  lemma LogSnoc(memory: nat, calls: seq<Call>, replies: seq<Reply>, at: seq<nat>, nets: seq<Net>, start: nat,
                reply: Reply, net: Net)
    requires Logged(memory, calls, replies, at, nets, start) && |replies| < |calls|
    requires var k := |replies|;
             && at[k] <= |nets[k].received| && Reports(reply, reply.cursor, net)
             && Steps(memory, calls[k], at[k], nets[k], net)
             && Answers(calls[k], at[k], Peak(start, at), reply, net.received)
    ensures Logged(memory, calls, replies + [reply], at + [reply.cursor], nets + [net], start)
    ensures Peak(start, at + [reply.cursor]) == Max(Peak(start, at), reply.cursor)
  {
    hide Answers, Steps;
    var more := at + [reply.cursor];
    assert forall k :: 0 <= k <= |at| ==> more[..k] == at[..k];
    assert at[..|at|] == at;
  }
}
