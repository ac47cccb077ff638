/** The segmenter object of src/audio.c: every operation refines its counterpart in Segmentation. */
module SegmenterObject {
  import opened Common
  import opened Segmentation
  import opened SegmentStore

  class Segmenter {
    const cfg: Config
    const sink: Sink
    /** The capacities the segment callback reads with; reading never affects what is stored. */
    const pulls: seq<Output> -> seq<nat>
    const store: FrameStore
    const ring: Ring
    var cursor: nat
    var start: nat
    var speech: nat
    var silence: nat
    var index: nat
    var open: bool
    var pressed: bool
    var error: bool
    /** Kept by the model only: the stream consumed and everything emitted. */
    var source: seq<Frame>
    var out: seq<Output>

    ghost predicate Readable()
      reads this, store, ring
    {
      && store.Valid() && ring.Valid() && store.frames != ring.slots
      && store.limit == cfg.maxSpool > 0 && ring.slots.Length == cfg.prebuffer
      && cursor == Min(|source|, SIZE_MAX)
      && (!open ==> store.total == 0 && !store.spooled)
    }

    /** Outside a segment callback the store is also ready for the next write. */
    ghost predicate Valid()
      reads this, store, ring
    {
      Readable() && (!error ==> store.AtEnd())
    }

    ghost function Abstract(): State
      requires Readable()
      reads this, store, store.frames, ring, ring.slots
    {
      State(source, ring.Contents(), open, pressed, start, store.Contents(), speech, silence, index, error, out)
    }

    constructor (cfg: Config, sink: Sink, pulls: seq<Output> -> seq<nat>)
      requires Checked(cfg)
      ensures Valid() && Abstract() == IDLE
      ensures this.cfg == cfg && this.sink == sink
      ensures fresh(store) && fresh(store.frames) && fresh(ring) && fresh(ring.slots)
    {
      this.cfg, this.sink, this.pulls := cfg, sink, pulls;
      store := new FrameStore(cfg.memoryFrames, cfg.maxSpool);
      ring := new Ring(cfg.prebuffer);
      cursor, start, speech, silence, index := 0, 0, 0, 0, 0;
      open, pressed, error := false, false, false;
      source, out := [], [];
    }

    method ResetSegment()
      requires Readable()
      modifies this, store
      ensures Valid() && Abstract() == Reset(old(Abstract()))
    {
      store.Reset();
      speech, silence, open := 0, 0, false;
    }

    method EmitState(kind: Kind) returns (result: Result)
      requires Valid() && !error
      modifies this
      ensures Valid() && Outcome(Abstract(), result) == Segmentation.EmitState(cfg, sink, old(Abstract()), kind)
    {
      if !cfg.stateSink {
        return Ok;
      }
      out := out + [Event(kind, index)];
      if !sink(out) {
        error := true;
        return ErrIo;
      }
      return Ok;
    }

    /** Rewinds the store and lets the segment callback read as it likes. */
    method Present(hardCut: bool, final: bool)
      requires Valid()
      modifies this`out, store
      ensures Readable()
      ensures var was := old(Abstract()); Abstract() == was.(out := was.out + [SegmentOf(was, hardCut, final)])
    {
      hide FloorTick, CeilTick, SaturatingAdd, FrameStore.Contents, Ring.Contents;
      store.Rewind();
      out := out + [Segment(index, start, FloorTick(start), CeilTick(SaturatingAdd(start, store.total)),
                            |source| - store.total, store.Contents(), hardCut, final)];
      var read := store.ReadMany(pulls(out));
    }

    method Deliver(hardCut: bool, final: bool) returns (result: Result)
      requires Valid() && !error
      modifies this, store
      ensures Valid()
      ensures var was := old(Abstract());
              var s := was.(out := was.out + [SegmentOf(was, hardCut, final)]);
              Outcome(Abstract(), result) ==
              if sink(s.out) then Outcome(Reset(s.(index := s.index + 1)), Ok) else Outcome(s.(error := true), ErrIo)
    {
      hide FloorTick, CeilTick, SaturatingAdd, FrameStore.Contents, Ring.Contents;
      Present(hardCut, final);
      if !sink(out) {
        error := true;
        return ErrIo;
      }
      index := index + 1;
      ResetSegment();
      return Ok;
    }

    method Emit(hardCut: bool, final: bool) returns (result: Result)
      requires Valid() && !error
      modifies this, store
      ensures Valid() && Outcome(Abstract(), result) == Segmentation.Emit(cfg, sink, old(Abstract()), hardCut, final)
    {
      if (final && speech < cfg.minSegment) || store.total < cfg.minSegment {
        out := out + [Dropped(|source| - store.total, store.Contents(), final)];
        ResetSegment();
        return Ok;
      }
      result := Deliver(hardCut, final);
    }

    method Close(kind: Kind, final: bool) returns (result: Result)
      requires Valid() && !error
      modifies this, store
      ensures Valid() && Outcome(Abstract(), result) == Segmentation.Close(cfg, sink, old(Abstract()), kind, final)
      ensures result == Ok ==> !open && !error && ring.Contents() == old(ring.Contents())
    {
      result := EmitState(kind);
      if result == Ok {
        result := Emit(kind == HardCut, final);
      }
    }

    method AppendPrebuffer() returns (result: Result)
      requires Valid() && !error && open && store.total == 0
      modifies store, store.frames, ring
      ensures Valid()
      ensures var was := old(Abstract());
              if |was.ring| > cfg.maxSpool
              then result == AtEnd && Abstract() == was.(stored := was.ring[..cfg.maxSpool])
              else result == Ok && Abstract() == was.(stored := was.ring, ring := [])
    {
      assert store.Contents() == [];
      result := Drain(ring, store);
    }

    method Begin() returns (result: Result)
      requires Valid() && !error && !open
      modifies this, store, store.frames, ring
      ensures Valid() && Outcome(Abstract(), result) == Segmentation.Begin(cfg, sink, old(Abstract()))
      ensures result == Ok ==> open && !error && ring.Contents() == [] && store.Contents() == old(ring.Contents())
    {
      open := true;
      start := if cursor >= ring.count then cursor - ring.count else 0;
      speech, silence := 0, 0;
      assert Abstract() == Opening(old(Abstract()));
      result := EmitState(TxOn);
      if result == Ok {
        result := AppendPrebuffer();
      }
    }

    /** Whether the frame was stored, and if so the bookkeeping that goes with it. */
    method Take(x: Frame, loud: bool) returns (taken: bool)
      requires Valid() && !error && open && loud == Loud(cfg, x)
      modifies this, store, store.frames
      ensures Valid() && open && !error
      ensures taken <==> !Full(cfg, old(Abstract()))
      ensures Abstract() == if taken then Segmentation.Take(cfg, old(Abstract()), x) else old(Abstract())
    {
      var result := store.Append(x);
      if result == AtEnd {
        return false;
      }
      source := source + [x];
      cursor := SaturatingAdd(cursor, 1);
      if loud {
        speech, silence := speech + 1, 0;
      } else if silence < SIZE_MAX {
        silence := silence + 1;
      } else {
        silence := SIZE_MAX;
      }
      return true;
    }

    method Settle() returns (result: Result)
      requires Valid() && !error && open
      modifies this, store
      ensures Valid() && Outcome(Abstract(), result) == Segmentation.Settle(cfg, sink, old(Abstract()))
      ensures result == Ok ==> !error
    {
      if cfg.release != 0 && silence >= cfg.release {
        result := Close(TxOff, false);
      } else if cfg.maxSegment != 0 && store.total >= cfg.maxSegment {
        result := Close(HardCut, false);
      } else {
        result := Ok;
      }
    }

    method Wait(x: Frame)
      requires Valid() && !open
      modifies this, ring, ring.slots
      ensures Valid()
      ensures var was := old(Abstract());
              Abstract() == was.(ring := Newest(was.ring + [x], cfg.prebuffer), source := was.source + [x])
    {
      ring.Add(x);
      source := source + [x];
      cursor := SaturatingAdd(cursor, 1);
    }

    /** One pass of the push loop. `again` asks for another pass over the same frame. */
    method VoxPass(x: Frame) returns (result: Result, again: bool)
      requires Valid() && !error
      modifies this, store, store.frames, ring, ring.slots
      ensures Valid() && (result == Ok ==> !error)
      ensures again ==> result == Ok && Rank(cfg, Abstract()) < Rank(cfg, old(Abstract()))
      ensures again ==> VoxFrame(cfg, sink, Abstract(), x) == VoxFrame(cfg, sink, old(Abstract()), x)
      ensures !again ==> Outcome(Abstract(), result) == VoxFrame(cfg, sink, old(Abstract()), x)
    {
      hide Segmentation.Begin, Segmentation.Settle, Segmentation.Close, Segmentation.Take;
      again := false;
      var loud := Loud(cfg, x);
      if !open && !loud {
        Wait(x);
        return Ok, false;
      }
      ghost var s := Abstract();
      if !open {
        result := Begin();
        if result != Ok {
          return;
        }
      }
      assert Ready(cfg, sink, s) == Outcome(Abstract(), Ok);
      var taken := Take(x, loud);
      if !taken {
        result := Close(HardCut, false);
        again := result == Ok;
        return;
      }
      result := Settle();
    }

    method VoxPush(frames: seq<Frame>) returns (result: Result)
      requires Valid()
      modifies this, store, store.frames, ring, ring.slots
      ensures Valid() && Outcome(Abstract(), result) == Segmentation.VoxPush(cfg, sink, old(Abstract()), frames)
    {
      hide VoxFrame;
      if error {
        return ErrIo;
      }
      var i := 0;
      assert frames[i..] == frames;
      while i < |frames|
        invariant i <= |frames| && Valid() && !error
        invariant VoxFrames(cfg, sink, Abstract(), frames[i..]) == VoxFrames(cfg, sink, old(Abstract()), frames)
        decreases |frames| - i, Rank(cfg, Abstract())
      {
        assert frames[i..][1..] == frames[i + 1..];
        var again;
        result, again := VoxPass(frames[i]);
        if result != Ok {
          return;
        }
        if !again {
          i := i + 1;
        }
      }
      result := Ok;
    }

    method VoxFlush() returns (result: Result)
      requires Valid()
      modifies this, store
      ensures Valid() && Outcome(Abstract(), result) == Segmentation.VoxFlush(cfg, sink, old(Abstract()))
    {
      if error {
        return ErrIo;
      }
      if !open || store.total == 0 {
        return Ok;
      }
      result := Close(TxOff, true);
    }

    method Press() returns (result: Result)
      requires Valid()
      modifies this
      ensures Valid() && Outcome(Abstract(), result) == Segmentation.Press(cfg, sink, old(Abstract()))
      ensures result == Ok ==> open && !error && (!old(open) ==> store.Contents() == [])
    {
      if error {
        return ErrIo;
      }
      pressed := true;
      if open {
        return Ok;
      }
      open, start, speech, silence := true, cursor, 0, 0;
      result := EmitState(TxOn);
    }

    method Release() returns (result: Result)
      requires Valid()
      modifies this, store
      ensures Valid() && Outcome(Abstract(), result) == Segmentation.Release(cfg, sink, old(Abstract()))
    {
      if error {
        return ErrIo;
      }
      pressed := false;
      if !open {
        return Ok;
      }
      result := EmitState(TxOff);
      if result != Ok {
        return;
      }
      if store.total == 0 {
        ResetSegment();
        return Ok;
      }
      result := Emit(false, false);
    }

    method PttTake(x: Frame) returns (taken: bool)
      requires Valid() && !error && open
      modifies this, store, store.frames
      ensures Valid() && open && !error
      ensures taken <==> !Full(cfg, old(Abstract()))
      ensures var was := old(Abstract());
              Abstract() == if taken
                            then was.(stored := was.stored + [x], source := was.source + [x], speech := was.speech + 1)
                            else was
    {
      var result := store.Append(x);
      if result == AtEnd {
        return false;
      }
      source := source + [x];
      cursor := SaturatingAdd(cursor, 1);
      speech := speech + 1;
      return true;
    }

    method PttPass(x: Frame) returns (result: Result, again: bool)
      requires Valid() && !error
      modifies this, store, store.frames
      ensures Valid() && (result == Ok ==> !error)
      ensures again ==> result == Ok && old(open) && Full(cfg, old(Abstract())) && !open
      ensures again ==> PttFrame(cfg, sink, Abstract(), x) == PttFrame(cfg, sink, old(Abstract()), x)
      ensures !again ==> Outcome(Abstract(), result) == PttFrame(cfg, sink, old(Abstract()), x)
    {
      hide Segmentation.Press, Segmentation.Close;
      again := false;
      if !open {
        result := Press();
        if result != Ok {
          return;
        }
      }
      ghost var s := Abstract();
      var taken := PttTake(x);
      if !taken {
        result := Close(HardCut, false);
        again := result == Ok;
        return;
      }
      if cfg.maxSegment != 0 && store.total >= cfg.maxSegment {
        result := Close(HardCut, false);
      } else {
        result := Ok;
      }
    }

    method PttPush(frames: seq<Frame>) returns (result: Result)
      requires Valid()
      modifies this, store, store.frames
      ensures Valid() && Outcome(Abstract(), result) == Segmentation.PttPush(cfg, sink, old(Abstract()), frames)
    {
      hide PttFrame;
      if error {
        return ErrIo;
      }
      if !pressed {
        source := source + frames;
        cursor := SaturatingAdd(cursor, |frames|);
        return Ok;
      }
      var i := 0;
      assert frames[i..] == frames;
      while i < |frames|
        invariant i <= |frames| && Valid() && !error
        invariant PttFrames(cfg, sink, Abstract(), frames[i..]) == PttFrames(cfg, sink, old(Abstract()), frames)
        decreases |frames| - i, if open then 1 else 0
      {
        assert frames[i..][1..] == frames[i + 1..];
        var again;
        result, again := PttPass(frames[i]);
        if result != Ok {
          return;
        }
        if !again {
          i := i + 1;
        }
      }
      result := Ok;
    }

    method PttFlush() returns (result: Result)
      requires Valid()
      modifies this, store
      ensures Valid() && Outcome(Abstract(), result) == Segmentation.PttFlush(cfg, sink, old(Abstract()))
    {
      if error {
        return ErrIo;
      }
      pressed := false;
      if !open || store.total == 0 {
        return Ok;
      }
      result := Close(TxOff, true);
    }
  }
}
