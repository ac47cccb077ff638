/** Reassembly of 16-bit samples from a capture process, src/audio.c. */
module Capture {
  import opened Common

  const FRAME_CHUNK: nat := 1024

  datatype Result = Ok | ErrIo

  /** What the operating system has ready: some bytes, nothing yet, end of file, or an error. */
  datatype Input = Data(bytes: seq<Byte>) | Again | Eof | Failure

  /** Every byte that will ever arrive. */
  function Flat(input: seq<Input>): seq<Byte> {
    if input == [] then [] else (if input[0].Data? then input[0].bytes else []) + Flat(input[1..])
  }

  /** The bytes that arrive before a read is not answered with data. */
  function Ready(input: seq<Input>): seq<Byte> {
    if input == [] || !input[0].Data? || input[0].bytes == [] then [] else input[0].bytes + Ready(input[1..])
  }

  /** How the first such read is answered; reading nothing is end of file. */
  function Stop(input: seq<Input>): (stop: Input)
    ensures !stop.Data?
  {
    if input == [] then Again
    else if !input[0].Data? then input[0]
    else if input[0].bytes == [] then Eof
    else Stop(input[1..])
  }

  /** The input without its first item. */
  function Tail(input: seq<Input>): seq<Input> { if input == [] then [] else input[1..] }

  /** The input without its first `n` bytes; an item read in part stays with the rest of it. */
  function Drop(input: seq<Input>, n: nat): seq<Input>
    requires n <= |Ready(input)|
  {
    if n == 0 then input
    else if n < |input[0].bytes| then [Data(input[0].bytes[n..])] + input[1..]
    else Drop(input[1..], n - |input[0].bytes|)
  }

  /** What the first item means for the whole input. */
  lemma FirstItem(input: seq<Input>)
    ensures Ready(input) != [] ==>
              && input != [] && input[0].Data? && input[0].bytes != []
              && Ready(input) == input[0].bytes + Ready(input[1..]) && Stop(input) == Stop(input[1..])
              && Flat(input) == input[0].bytes + Flat(input[1..])
  {
  }

  /** Reading part of an item leaves the rest of it. */
  lemma SplitFirst(bytes: seq<Byte>, n: nat, rest: seq<Input>)
    requires 0 < n < |bytes|
    ensures var left := [Data(bytes[n..])] + rest;
            && Ready(left) == (bytes + Ready(rest))[n..] && Stop(left) == Stop(rest)
            && bytes + Flat(rest) == (bytes + Ready(rest))[..n] + Flat(left)
  {
    var left := [Data(bytes[n..])] + rest;
    assert left[1..] == rest;
    assert Ready(left) == bytes[n..] + Ready(rest) && Flat(left) == bytes[n..] + Flat(rest);
    assert (bytes + Ready(rest))[..n] == bytes[..n] && bytes == bytes[..n] + bytes[n..];
  }

  lemma {:induction false} DropFacts(input: seq<Input>, n: nat)
    requires n <= |Ready(input)|
    ensures Ready(Drop(input, n)) == Ready(input)[n..] && Stop(Drop(input, n)) == Stop(input)
    ensures Flat(input) == Ready(input)[..n] + Flat(Drop(input, n))
    decreases |input|
  {
    hide Flat, Ready, Stop;
    FirstItem(input);
    if n > 0 {
      var bytes, rest := input[0].bytes, input[1..];
      if n < |bytes| {
        SplitFirst(bytes, n, rest);
      } else {
        DropFacts(rest, n - |bytes|);
        assert (bytes + Ready(rest))[..n] == bytes + Ready(rest)[..n - |bytes|];
      }
    }
  }

  lemma {:induction false} DropTwice(input: seq<Input>, a: nat, b: nat)
    requires a + b <= |Ready(input)|
    ensures b <= |Ready(Drop(input, a))| && Drop(Drop(input, a), b) == Drop(input, a + b)
    ensures Ready(input)[..a] + Ready(Drop(input, a))[..b] == Ready(input)[..a + b]
    decreases |input|
  {
    DropFacts(input, a);
    if a > 0 && b > 0 {
      var bytes, rest := input[0].bytes, input[1..];
      if a < |bytes| {
        var left := [Data(bytes[a..])] + rest;
        assert left[1..] == rest;
        assert a + b < |bytes| ==> bytes[a..][b..] == bytes[a + b..];
      } else {
        DropTwice(rest, a - |bytes|, b);
      }
    }
  }

  /** Where no data is ready the first item holds none. */
  lemma TailKeepsBytes(input: seq<Input>)
    requires Ready(input) == []
    ensures Flat(Tail(input)) == Flat(input)
  {
  }

  // ----- what one call takes -----

  /** Bytes one call reads, with `left` bytes waiting. */
  function Reads(input: seq<Input>, left: nat, capacity: nat): (n: nat)
    requires left <= 1 && capacity > 0
    ensures n <= |Ready(input)|
  {
    if (left + |Ready(input)|) / 2 >= capacity then 2 * capacity - left else |Ready(input)|
  }

  /** What it leaves: all that is ready when the capacity allows, and then the answer that stopped it. */
  function Remaining(input: seq<Input>, left: nat, capacity: nat): seq<Input>
    requires left <= 1 && capacity > 0
  {
    var rest := Drop(input, Reads(input, left, capacity));
    if (left + |Ready(input)|) / 2 >= capacity then rest else Tail(rest)
  }

  /** Samples it completes. */
  function Completes(input: seq<Input>, left: nat, capacity: nat): nat {
    Min(capacity, (left + |Ready(input)|) / 2)
  }

  /** Bytes that wait afterwards. */
  function Waits(input: seq<Input>, left: nat, capacity: nat): nat {
    var have := left + |Ready(input)|;
    if have / 2 >= capacity then 0 else have % 2
  }

  /** It meets an error, or the end of file with no byte waiting, before it has all it can take. */
  predicate Fails(input: seq<Input>, left: nat, capacity: nat) {
    var have := left + |Ready(input)|;
    have / 2 < capacity && (Stop(input) == Failure || (Stop(input) == Eof && have % 2 == 0))
  }

  lemma RemainingKeepsBytes(input: seq<Input>, left: nat, capacity: nat)
    requires left <= 1 && capacity > 0
    ensures Flat(input) == Ready(input)[..Reads(input, left, capacity)] + Flat(Remaining(input, left, capacity))
  {
    hide Flat, Ready, Drop, Stop;
    var n := Reads(input, left, capacity);
    DropFacts(input, n);
    if (left + |Ready(input)|) / 2 < capacity {
      TailKeepsBytes(Drop(input, n));
    }
  }

  // ----- any number of calls -----

  /** After some calls: whether all succeeded, how many samples they returned, whether a byte waits, and
      what is still to come. */
  datatype Heard = Heard(ok: bool, count: nat, left: nat, input: seq<Input>)

  function Hear(h: Heard, capacity: nat): Heard
    requires h.left <= 1
  {
    if !h.ok || capacity == 0 then h
    else
      var left, rest := Waits(h.input, h.left, capacity), Remaining(h.input, h.left, capacity);
      if Fails(h.input, h.left, capacity) then Heard(false, h.count, left, rest)
      else Heard(true, h.count + Completes(h.input, h.left, capacity), left, rest)
  }

  function Listen(input: seq<Input>, capacities: seq<nat>): (h: Heard)
    ensures h.left <= 1
  {
    if capacities == [] then Heard(true, 0, 0, input)
    else Hear(Listen(input, capacities[..|capacities| - 1]), capacities[|capacities| - 1])
  }

  /** Reads may find nothing yet, but no error and no end. */
  predicate Calm(input: seq<Input>) {
    forall i :: 0 <= i < |input| ==> input[i] == Again || (input[i].Data? && input[i].bytes != [])
  }

  /** Every read is answered with data as long as there is any. */
  predicate Steady(input: seq<Input>) {
    forall i :: 0 <= i < |input| ==> input[i].Data? && input[i].bytes != []
  }

  lemma {:induction false} CalmStops(input: seq<Input>)
    requires Calm(input)
    ensures Stop(input) == Again && (Steady(input) ==> Ready(input) == Flat(input))
  {
    if input != [] && input[0].Data? {
      CalmStops(input[1..]);
    }
  }

  lemma {:induction false} DropKeepsCalm(input: seq<Input>, n: nat)
    requires n <= |Ready(input)| && Calm(input)
    ensures Calm(Drop(input, n)) && (Steady(input) ==> Steady(Drop(input, n)))
    decreases |input|
  {
    if n > 0 && n >= |input[0].bytes| {
      DropKeepsCalm(input[1..], n - |input[0].bytes|);
    }
  }

  /** Short reads alone lose nothing and fail nothing: every byte is in a sample returned, waits, or is
      still to come. */
  lemma {:induction false} CalmIsHeard(input: seq<Input>, capacities: seq<nat>)
    requires Calm(input)
    ensures var h := Listen(input, capacities);
            && h.ok && Calm(h.input) && 2 * h.count + h.left + |Flat(h.input)| == |Flat(input)|
            && h.count <= Sum(capacities)
    decreases |capacities|
  {
    hide Flat, Ready, Stop, Drop;
    if capacities != [] {
      var init, c := capacities[..|capacities| - 1], capacities[|capacities| - 1];
      CalmIsHeard(input, init);
      var h := Listen(input, init);
      if c > 0 {
        CalmStops(h.input);
        DropKeepsCalm(h.input, Reads(h.input, h.left, c));
        RemainingKeepsBytes(h.input, h.left, c);
      }
    }
  }

  /** When reads are answered with data no sample is held back either. */
  lemma {:induction false} SteadyIsHeard(input: seq<Input>, capacities: seq<nat>)
    requires Steady(input)
    ensures var h := Listen(input, capacities);
            h.ok && Steady(h.input) && h.count == Min(Sum(capacities), |Flat(input)| / 2)
    decreases |capacities|
  {
    hide Flat, Ready, Stop, Drop;
    if capacities != [] {
      var init, c := capacities[..|capacities| - 1], capacities[|capacities| - 1];
      SteadyIsHeard(input, init);
      CalmIsHeard(input, init);
      var h := Listen(input, init);
      if c > 0 {
        CalmStops(h.input);
        DropKeepsCalm(h.input, Reads(h.input, h.left, c));
      }
    }
  }

  // ----- the sample codec -----

  /** Little-endian two's complement to a number. */
  function Decode(lo: Byte, hi: Byte): (sample: int)
    ensures -0x8000 <= sample < 0x8000
    ensures sample % 0x10000 == lo as int + 256 * (hi as int)
  {
    var value := lo as int + 256 * (hi as int);
    if value >= 0x8000 then value - 0x10000 else value
  }

  function Encode(sample: int): (Byte, Byte)
    requires -0x8000 <= sample < 0x8000
  {
    var value := if sample < 0 then sample + 0x10000 else sample;
    ((value % 256) as Byte, ((value / 256) % 256) as Byte)
  }

  /** The codec is a bijection between samples and byte pairs. */
  lemma CodecRoundTrips(sample: int, lo: Byte, hi: Byte)
    requires -0x8000 <= sample < 0x8000
    ensures Decode(Encode(sample).0, Encode(sample).1) == sample
    ensures Encode(Decode(lo, hi)) == (lo, hi)
  {
  }

  /** The samples of a byte stream; an odd last byte waits for its partner. */
  function Samples(bytes: seq<Byte>): (samples: seq<int>)
    ensures |samples| == |bytes| / 2
    decreases |bytes|
  {
    if |bytes| < 2 then [] else [Decode(bytes[0], bytes[1])] + Samples(bytes[2..])
  }

  function Leftover(bytes: seq<Byte>): seq<Byte> {
    if |bytes| % 2 == 0 then [] else [bytes[|bytes| - 1]]
  }

  lemma LeftoverShape(bytes: seq<Byte>)
    ensures Leftover(bytes) == [] || (bytes != [] && Leftover(bytes) == [bytes[|bytes| - 1]])
    ensures |Samples(bytes)| == |bytes| / 2
  {
  }

  lemma {:induction false} SamplesAppend(a: seq<Byte>, b: seq<Byte>)
    requires |a| % 2 == 0
    ensures Samples(a + b) == Samples(a) + Samples(b)
    decreases |a|
  {
    hide Decode;
    if a == [] {
      assert a + b == b;
    } else {
      var rest := a[2..];
      assert (a + b)[2..] == rest + b;
      SamplesAppend(rest, b);
    }
  }

  /** A stream decodes as its even part, and what follows decodes from the waiting byte on. */
  lemma SamplesContinue(stream: seq<Byte>, more: seq<Byte>)
    ensures Samples(stream + more) == Samples(stream) + Samples(Leftover(stream) + more)
    ensures Leftover(stream + more) == Leftover(Leftover(stream) + more)
  {
    var even := stream[..|stream| - |Leftover(stream)|];
    assert stream == even + Leftover(stream);
    assert stream + more == even + (Leftover(stream) + more);
    SamplesAppend(even, Leftover(stream) + more);
    SamplesAppend(even, Leftover(stream));
  }

  /** The pair loop: with room for every pair it stops only when at most one byte is left. */
  method UnpackPairs(bytes: seq<Byte>, capacity: nat) returns (samples: seq<int>, index: nat)
    requires |bytes| <= 2 * capacity
    ensures samples == Samples(bytes) && index == |bytes| - |Leftover(bytes)|
  {
    samples, index := [], 0;
    while index + 1 < |bytes| && |samples| < capacity
      invariant index % 2 == 0 && index <= |bytes| && |samples| == index / 2
      invariant samples == Samples(bytes[..index])
    {
      var pair := bytes[index..index + 2];
      assert bytes[..index + 2] == bytes[..index] + pair;
      SamplesAppend(bytes[..index], pair);
      assert Samples(pair) == [Decode(bytes[index], bytes[index + 1])];
      samples := samples + [Decode(bytes[index], bytes[index + 1])];
      index := index + 2;
    }
    SamplesAppend(bytes[..index], bytes[index..]);
    assert bytes == bytes[..index] + bytes[index..];
  }

  /** A decoded stream has half as many samples as bytes, and the parity waits. */
  lemma CountsMatch(stream: seq<Byte>, decoded: seq<int>)
    requires decoded == Samples(stream)
    ensures |stream| == 2 * |decoded| + |Leftover(stream)| && |Leftover(stream)| <= 1
  {
  }

  class Process {
    var started: bool
    var hasPending: bool
    var pending: Byte
    var input: seq<Input>
    /** Every byte read so far and every sample decoded from them. */
    ghost var stream: seq<Byte>
    ghost var decoded: seq<int>

    ghost predicate Valid()
      reads this
    {
      decoded == Samples(stream) && Leftover(stream) == (if hasPending then [pending] else [])
    }

    constructor (input: seq<Input>)
      ensures Valid() && stream == [] && decoded == [] && started && this.input == input
    {
      started, hasPending, pending := true, false, 0;
      this.input, stream, decoded := input, [], [];
    }

    /** One read of at most `n` bytes; whatever is left stays for the next. */
    method ReadSome(n: nat) returns (got: Input)
      requires n > 0
      modifies this`input
      ensures got.Data? ==>
                && 0 < |got.bytes| <= n && got.bytes <= Ready(old(input))
                && input == Drop(old(input), |got.bytes|)
      ensures !got.Data? ==> Ready(old(input)) == [] && got == Stop(old(input)) && input == Tail(old(input))
    {
      if input == [] {
        return Again;
      }
      got := input[0];
      input := input[1..];
      if got.Data? {
        if |got.bytes| == 0 {
          got := Eof;
        } else if |got.bytes| > n {
          input := [Data(got.bytes[n..])] + input;
          got := Data(got.bytes[..n]);
        } else {
          assert Drop(input, 0) == input;
        }
      }
    }

    /** Decodes the pairs of one read and keeps an odd byte. */
    method Unpack(bytes: seq<Byte>, capacity: nat) returns (samples: seq<int>)
      requires Valid() && !hasPending && |bytes| <= 2 * capacity
      modifies this`hasPending, this`pending, this`stream, this`decoded
      ensures Valid() && stream == old(stream) + bytes && decoded == old(decoded) + samples && |samples| <= capacity
      ensures bytes != [] ==> samples != [] || hasPending
      ensures |samples| == capacity ==> !hasPending
    {
      hide Samples, Leftover, Decode;
      var index;
      samples, index := UnpackPairs(bytes, capacity);
      LeftoverShape(bytes);
      CountsMatch(bytes, samples);
      SamplesContinue(stream, bytes);
      assert Leftover(stream) + bytes == bytes;
      if index < |bytes| {
        pending := bytes[index];
        hasPending := true;
      }
      stream := stream + bytes;
      decoded := decoded + samples;
    }

    /** Completes the waiting byte. */
    method Complete(second: Byte) returns (sample: int)
      requires Valid() && hasPending
      modifies this`hasPending, this`stream, this`decoded
      ensures Valid() && !hasPending && stream == old(stream) + [second] && decoded == old(decoded) + [sample]
    {
      sample := Decode(pending, second);
      SamplesContinue(stream, [second]);
      assert Leftover(stream) + [second] == [pending, second];
      hasPending := false;
      stream := stream + [second];
      decoded := decoded + [sample];
    }

    /** One turn of the loop: a read, and what it completes. */
    method Pass(room: nat) returns (got: Input, samples: seq<int>)
      requires Valid() && room > 0
      modifies this`input, this`hasPending, this`pending, this`stream, this`decoded
      ensures Valid() && |samples| <= room && decoded == old(decoded) + samples
      ensures got.Data? ==>
                && 0 < |got.bytes| && got.bytes <= Ready(old(input)) && input == Drop(old(input), |got.bytes|)
                && stream == old(stream) + got.bytes
                && (samples != [] || (!old(hasPending) && hasPending)) && (|samples| == room ==> !hasPending)
      ensures !got.Data? ==>
                && Ready(old(input)) == [] && got == Stop(old(input)) && input == Tail(old(input))
                && samples == [] && stream == old(stream) && hasPending == old(hasPending)
    {
      hide Samples, Leftover, Ready, Stop, Flat, Drop;
      samples := [];
      if hasPending {
        got := ReadSome(1);
        if got.Data? {
          var sample := Complete(got.bytes[0]);
          assert got.bytes == [got.bytes[0]];
          samples := [sample];
        }
      } else {
        got := ReadSome(if 2 * room > 2 * FRAME_CHUNK then 2 * FRAME_CHUNK else 2 * room);
        if got.Data? {
          samples := Unpack(got.bytes, room);
        }
      }
    }

    ghost function Waiting(): nat
      requires Valid()
      reads this
      ensures Waiting() <= 1
    {
      |Leftover(stream)|
    }

    /** The loop of a call: until the capacity is reached or a read is not answered with data. */
    method Fill(capacity: nat) returns (frames: seq<int>, stop: Option<Input>)
      requires Valid()
      modifies this`input, this`hasPending, this`pending, this`stream, this`decoded
      ensures Valid() && |frames| <= capacity && decoded == old(decoded) + frames
      ensures stop.None? ==>
                && |frames| == capacity && (capacity > 0 ==> !hasPending)
                && exists n: nat :: n <= |Ready(old(input))| && input == Drop(old(input), n)
                                    && stream == old(stream) + Ready(old(input))[..n]
      ensures stop.Some? ==>
                && |frames| < capacity && stop.value == Stop(old(input))
                && input == Tail(Drop(old(input), |Ready(old(input))|)) && stream == old(stream) + Ready(old(input))
    {
      hide Samples, Leftover, Ready, Stop, Flat, Drop;
      frames := [];
      ghost var n: nat := 0;
      DropNone(input);
      while |frames| < capacity
        invariant Valid() && |frames| <= capacity && decoded == old(decoded) + frames
        invariant n <= |Ready(old(input))| && input == Drop(old(input), n)
        invariant stream == old(stream) + Ready(old(input))[..n]
        invariant |frames| == capacity > 0 ==> !hasPending
        decreases capacity - |frames|, if hasPending then 0 else 1
      {
        DropFacts(old(input), n);
        var got, samples := Pass(capacity - |frames|);
        frames := frames + samples;
        if !got.Data? {
          assert Ready(old(input))[..n] == Ready(old(input));
          return frames, Some(got);
        }
        DropTwice(old(input), n, |got.bytes|);
        n := n + |got.bytes|;
      }
      stop := None;
    }

    /** One capture read. It reads what it can use, and returns exactly the samples completed by that, as
        many as the ready bytes and the capacity give; a call that ends in a read error returns none,
        and loses those it had decoded. */
    method Read(capacity: nat, sinkAccepts: bool) returns (result: Result, frames: seq<int>)
      requires Valid()
      modifies this
      ensures Valid() && |frames| <= capacity && old(decoded) <= decoded
      ensures capacity == 0 || !old(started) ==>
                && result == Ok && frames == []
                && input == old(input) && stream == old(stream) && started == old(started)
      ensures capacity > 0 && old(started) ==>
                && input == Remaining(old(input), old(Waiting()), capacity)
                && stream == old(stream) + Ready(old(input))[..Reads(old(input), old(Waiting()), capacity)]
                && |decoded| == |old(decoded)| + Completes(old(input), old(Waiting()), capacity)
                && Waiting() == Waits(old(input), old(Waiting()), capacity)
                && if Fails(old(input), old(Waiting()), capacity)
                   then result == ErrIo && frames == [] && started == (Stop(old(input)) != Eof)
                   else decoded == old(decoded) + frames && (result == Ok <==> frames == [] || sinkAccepts) && started
    {
      hide Samples, Leftover, Ready, Stop, Flat, Drop, Reads, Remaining, Completes, Waits, Fails;
      if capacity == 0 || !started {
        return Ok, [];
      }
      CountsMatch(stream, decoded);
      ghost var left, start := Waiting(), |decoded|;
      var stop;
      frames, stop := Fill(capacity);
      CountsMatch(stream, decoded);
      if stop.None? {
        ghost var n: nat :| n <= |Ready(old(input))| && input == Drop(old(input), n)
                            && stream == old(stream) + Ready(old(input))[..n];
        ReadsEnough(old(input), left, capacity, n, start, |decoded|);
      } else {
        ReadsAll(old(input), left, capacity, start, |decoded|, Waiting());
        assert Ready(old(input))[..|Ready(old(input))|] == Ready(old(input));
        if stop.value == Failure {
          return ErrIo, [];
        }
        if stop.value == Eof && !hasPending {
          started := false;
          return ErrIo, [];
        }
      }
      result := if frames == [] || sinkAccepts then Ok else ErrIo;
    }

    /** A call with a sink that accepts, as one step of Listen. */
    method ReadOn(capacity: nat, ghost count: nat) returns (result: Result, frames: seq<int>)
      requires Valid()
      modifies this
      ensures Valid() && stream + Flat(input) == old(stream) + Flat(old(input))
      ensures old(decoded) <= decoded && (frames == [] || decoded == old(decoded) + frames)
      ensures result == Ok ==> decoded == old(decoded) + frames && started == old(started)
      ensures if old(started)
              then Hear(Heard(true, count, old(Waiting()), old(input)), capacity)
                   == Heard(result == Ok, count + |frames|, Waiting(), input)
              else result == Ok && frames == [] && input == old(input)
    {
      hide Samples, Leftover, Ready, Stop, Flat, Drop, Reads, Remaining, Completes, Waits, Fails;
      if started && capacity > 0 {
        RemainingKeepsBytes(input, Waiting(), capacity);
      }
      CountsMatch(stream, decoded);
      result, frames := Read(capacity, true);
      CountsMatch(stream, decoded);
    }

    /** Calls of any capacities over any pattern of short reads, delays, errors and ends: which succeed, how
        many samples they return and what they leave is Listen; as long as none fails, what they return,
        joined together, is the decoding of every byte read, and the waiting byte is the odd one. */
    method Session(capacities: seq<nat>) returns (ok: bool, all: seq<int>)
      requires Valid() && stream == [] && decoded == []
      modifies this
      ensures Valid() && stream + Flat(input) == Flat(old(input))
      ensures all <= Samples(stream) <= Samples(Flat(old(input)))
      ensures ok ==> all == Samples(stream)
      ensures if old(started)
              then var h := Listen(old(input), capacities); ok == h.ok && |all| == h.count && input == h.input
              else ok && all == [] && input == old(input)
    {
      hide Samples, Leftover, Ready, Stop, Flat, Drop, Hear;
      all, ok := [], true;
      var i := 0;
      CountsMatch(stream, decoded);
      while i < |capacities|
        invariant i <= |capacities| && Valid() && ok && all == decoded && started == old(started)
        invariant stream + Flat(input) == Flat(old(input))
        invariant !started ==> input == old(input) && all == []
        invariant started ==> Listen(old(input), capacities[..i]) == Heard(true, |all|, Waiting(), input)
      {
        assert capacities[..i + 1][..i] == capacities[..i];
        var result, frames := ReadOn(capacities[i], |all|);
        all := all + frames;
        if result != Ok {
          ListenStays(old(input), capacities, i + 1);
          ok := false;
          break;
        }
        i := i + 1;
      }
      assert ok ==> capacities[..i] == capacities;
      SamplesContinue(stream, Flat(input));
    }
  }

  /** A call that ran out of ready bytes. */
  lemma ReadsAll(input: seq<Input>, left: nat, capacity: nat, before: nat, after: nat, now: nat)
    requires left <= 1 && capacity > 0 && now <= 1
    requires 2 * after + now == 2 * before + left + |Ready(input)| && after - before < capacity
    ensures Reads(input, left, capacity) == |Ready(input)|
    ensures Remaining(input, left, capacity) == Tail(Drop(input, |Ready(input)|))
    ensures after == before + Completes(input, left, capacity) && now == Waits(input, left, capacity)
    ensures Fails(input, left, capacity) <==> Stop(input) == Failure || (Stop(input) == Eof && now == 0)
  {
    hide Ready, Stop, Drop;
  }

  /** A call that got all it can take. */
  lemma ReadsEnough(input: seq<Input>, left: nat, capacity: nat, n: nat, before: nat, after: nat)
    requires left <= 1 && capacity > 0 && n <= |Ready(input)|
    requires 2 * after == 2 * before + left + n && after - before == capacity
    ensures n == Reads(input, left, capacity) && Remaining(input, left, capacity) == Drop(input, n)
    ensures after == before + Completes(input, left, capacity) && Waits(input, left, capacity) == 0
    ensures !Fails(input, left, capacity)
  {
    hide Ready, Stop, Drop;
  }

  lemma DropNone(input: seq<Input>)
    ensures Drop(input, 0) == input && Ready(input)[..0] == []
  {
  }

  /** A failure ends what is heard. */
  lemma {:induction false} ListenStays(input: seq<Input>, capacities: seq<nat>, k: nat)
    requires k <= |capacities| && !Listen(input, capacities[..k]).ok
    ensures Listen(input, capacities) == Listen(input, capacities[..k])
    decreases |capacities|
  {
    if k < |capacities| {
      var init := capacities[..|capacities| - 1];
      assert init[..k] == capacities[..k];
      ListenStays(input, init, k);
    } else {
      assert capacities[..k] == capacities;
    }
  }
}
