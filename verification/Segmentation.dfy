/** The VOX and PTT speech segmenters of src/audio.c as pure state machines.

    A frame is a real number (the source compares magnitudes only, so no rounding is involved).
    The two user callbacks are one `Sink`: a predicate on everything emitted so far, the newest
    entry last, that is true when the callback returns zero. Every callback behaviour that depends
    on what was emitted is such a predicate, and statements quantify over all of them. */
module Segmentation {
  import opened Common

  type Frame = real

  datatype Result = Ok | AtEnd | ErrIo

  /** Frame counts derived from the public configuration when a handle is opened. */
  datatype Config = Config(
    release: nat,
    maxSegment: nat,
    minSegment: nat,
    memoryFrames: nat,
    prebuffer: nat,
    maxSpool: nat,
    threshold: real,
    stateSink: bool)

  datatype Kind = TxOn | TxOff | HardCut

  /** One thing the segmenter emitted. `start`, `t0` and `t1` are what the callback is told; `from`
      is where `frames` really begins in the stream. `Dropped` records a segment that was too short
      to deliver; no callback sees it. */
  datatype Output =
    | Event(kind: Kind, index: nat)
    | Segment(index: nat, start: nat, t0: nat, t1: nat, from: int, frames: seq<Frame>, hardCut: bool, final: bool)
    | Dropped(from: int, frames: seq<Frame>, final: bool)

  type Sink = seq<Output> -> bool

  /** `source` is every frame consumed so far; the code keeps only its (saturating) length. */
  datatype State = State(
    source: seq<Frame>,
    ring: seq<Frame>,
    open: bool,
    pressed: bool,
    start: nat,
    stored: seq<Frame>,
    speech: nat,
    silence: nat,
    index: nat,
    error: bool,
    out: seq<Output>)

  datatype Outcome = Outcome(state: State, result: Result)

  const IDLE := State([], [], false, false, 0, [], 0, 0, 0, false, [])

  function SaturatingAdd(a: nat, b: nat): nat { Min(a + b, SIZE_MAX) }
  function Abs(x: Frame): Frame { if x < 0.0 then -x else x }
  predicate Loud(cfg: Config, x: Frame) { Abs(x) >= cfg.threshold }

  /** Start of a segment in 10 ms units: the last whole unit at or before `frame`. */
  function FloorTick(frame: nat): (tick: nat)
    ensures tick < LONG_MAX ==> 160 * tick <= frame < 160 * (tick + 1)
    ensures tick >= LONG_MAX ==> tick == LONG_MAX && frame >= 160 * LONG_MAX
  {
    Min(frame / 160, LONG_MAX)
  }

  /** End of a segment in 10 ms units: the first whole unit at or after `frame`. */
  function CeilTick(frame: nat): (tick: nat)
    ensures tick < LONG_MAX ==> frame <= 160 * tick < frame + 160
    ensures tick >= LONG_MAX ==> tick == LONG_MAX && frame > 160 * (LONG_MAX - 1)
  {
    var value := frame / 160;
    Min(if frame % 160 != 0 && value < LONG_MAX then value + 1 else value, LONG_MAX)
  }

  function Cursor(s: State): nat { Min(|s.source|, SIZE_MAX) }

  /** The position in the stream of the first stored frame. */
  function From(s: State): int { |s.source| - |s.stored| }

  function Reset(s: State): State {
    s.(open := false, stored := [], speech := 0, silence := 0)
  }

  function EmitState(cfg: Config, sink: Sink, s: State, kind: Kind): Outcome {
    if !cfg.stateSink then Outcome(s, Ok)
    else
      var t := s.(out := s.out + [Event(kind, s.index)]);
      if sink(t.out) then Outcome(t, Ok) else Outcome(t.(error := true), ErrIo)
  }

  predicate TooShort(cfg: Config, s: State, final: bool) {
    (final && s.speech < cfg.minSegment) || |s.stored| < cfg.minSegment
  }

  function SegmentOf(s: State, hardCut: bool, final: bool): Output {
    Segment(s.index, s.start, FloorTick(s.start), CeilTick(SaturatingAdd(s.start, |s.stored|)),
            From(s), s.stored, hardCut, final)
  }

  function Emit(cfg: Config, sink: Sink, s: State, hardCut: bool, final: bool): Outcome {
    if TooShort(cfg, s, final) then Outcome(Reset(s.(out := s.out + [Dropped(From(s), s.stored, final)])), Ok)
    else
      var t := s.(out := s.out + [SegmentOf(s, hardCut, final)]);
      if sink(t.out) then Outcome(Reset(t.(index := s.index + 1)), Ok)
      else Outcome(t.(error := true), ErrIo)
  }

  /** A state event followed by the segment it announces. */
  function Close(cfg: Config, sink: Sink, s: State, kind: Kind, final: bool): Outcome {
    var o := EmitState(cfg, sink, s, kind);
    if o.result != Ok then o else Emit(cfg, sink, o.state, kind == HardCut, final)
  }

  /** The last `capacity` frames of a sequence. */
  function Newest(frames: seq<Frame>, capacity: nat): seq<Frame> {
    frames[|frames| - Min(|frames|, capacity)..]
  }

  function Opening(s: State): State {
    s.(open := true,
       start := if Cursor(s) >= |s.ring| then Cursor(s) - |s.ring| else 0,
       stored := [], speech := 0, silence := 0)
  }

  /** Opening: TX_ON, then the prebuffered frames become the head of the segment. When they do not
      fit, the call ends part-way with AT_END and the ring keeps its contents. */
  function Begin(cfg: Config, sink: Sink, s: State): Outcome {
    var o := EmitState(cfg, sink, Opening(s), TxOn);
    if o.result != Ok then o
    else if |s.ring| > cfg.maxSpool then Outcome(o.state.(stored := s.ring[..cfg.maxSpool]), AtEnd)
    else Outcome(o.state.(stored := s.ring, ring := []), Ok)
  }

  function Ready(cfg: Config, sink: Sink, s: State): Outcome {
    if s.open then Outcome(s, Ok) else Begin(cfg, sink, s)
  }

  /** Store one frame, advance the stream, note its loudness. */
  function Take(cfg: Config, s: State, x: Frame): State {
    s.(stored := s.stored + [x],
       source := s.source + [x],
       speech := if Loud(cfg, x) then s.speech + 1 else s.speech,
       silence := if Loud(cfg, x) then 0 else Min(s.silence + 1, SIZE_MAX))
  }

  function Settle(cfg: Config, sink: Sink, s: State): Outcome {
    if cfg.release != 0 && s.silence >= cfg.release then Close(cfg, sink, s, TxOff, false)
    else if cfg.maxSegment != 0 && |s.stored| >= cfg.maxSegment then Close(cfg, sink, s, HardCut, false)
    else Outcome(s, Ok)
  }

  predicate Full(cfg: Config, s: State) { |s.stored| >= cfg.maxSpool }

  /** How many hard cuts the next frame can still provoke. */
  function Rank(cfg: Config, s: State): nat {
    if s.open && Full(cfg, s) then 2 else if !s.open && |s.ring| >= cfg.maxSpool then 1 else 0
  }

  /** One iteration of the push loop and its retries: what becomes of one frame. */
  function VoxFrame(cfg: Config, sink: Sink, s: State, x: Frame): Outcome
    requires cfg.maxSpool > 0
    decreases Rank(cfg, s)
  {
    if !s.open && !Loud(cfg, x) then
      Outcome(s.(ring := Newest(s.ring + [x], cfg.prebuffer), source := s.source + [x]), Ok)
    else
      var o := Ready(cfg, sink, s);
      if o.result != Ok then o
      else if Full(cfg, o.state) then
        var c := Close(cfg, sink, o.state, HardCut, false);
        if c.result != Ok then c else VoxFrame(cfg, sink, c.state, x)
      else Settle(cfg, sink, Take(cfg, o.state, x))
  }

  function VoxFrames(cfg: Config, sink: Sink, s: State, xs: seq<Frame>): Outcome
    requires cfg.maxSpool > 0
    decreases |xs|
  {
    if xs == [] then Outcome(s, Ok)
    else
      var o := VoxFrame(cfg, sink, s, xs[0]);
      if o.result != Ok then o else VoxFrames(cfg, sink, o.state, xs[1..])
  }

  function VoxPush(cfg: Config, sink: Sink, s: State, xs: seq<Frame>): Outcome
    requires cfg.maxSpool > 0
  {
    if s.error then Outcome(s, ErrIo) else VoxFrames(cfg, sink, s, xs)
  }

  function VoxFlush(cfg: Config, sink: Sink, s: State): Outcome {
    if s.error then Outcome(s, ErrIo)
    else if !s.open || |s.stored| == 0 then Outcome(s, Ok)
    else Close(cfg, sink, s, TxOff, true)
  }

  datatype VoxCall = Push(frames: seq<Frame>) | Flush

  function VoxApply(cfg: Config, sink: Sink, s: State, call: VoxCall): Outcome
    requires cfg.maxSpool > 0
  {
    match call
    case Push(xs) => VoxPush(cfg, sink, s, xs)
    case Flush => VoxFlush(cfg, sink, s)
  }

  /** The state after a whole run of calls, whatever each of them returned. */
  function VoxRun(cfg: Config, sink: Sink, calls: seq<VoxCall>): State
    requires cfg.maxSpool > 0
  {
    if calls == [] then IDLE
    else VoxApply(cfg, sink, VoxRun(cfg, sink, calls[..|calls| - 1]), calls[|calls| - 1]).state
  }

  // ----- push to talk -----

  function Press(cfg: Config, sink: Sink, s: State): Outcome {
    if s.error then Outcome(s, ErrIo)
    else if s.open then Outcome(s.(pressed := true), Ok)
    else EmitState(cfg, sink,
                   s.(pressed := true, open := true, start := Cursor(s), stored := [], speech := 0, silence := 0),
                   TxOn)
  }

  function Release(cfg: Config, sink: Sink, s: State): Outcome {
    if s.error then Outcome(s, ErrIo)
    else if !s.open then Outcome(s.(pressed := false), Ok)
    else
      var o := EmitState(cfg, sink, s.(pressed := false), TxOff);
      if o.result != Ok then o
      else if |s.stored| == 0 then Outcome(Reset(o.state), Ok)
      else Emit(cfg, sink, o.state, false, false)
  }

  function PttFrame(cfg: Config, sink: Sink, s: State, x: Frame): Outcome
    requires cfg.maxSpool > 0
    decreases if s.open && Full(cfg, s) then 1 else 0
  {
    var o := if s.open then Outcome(s, Ok) else Press(cfg, sink, s);
    if o.result != Ok then o
    else if Full(cfg, o.state) then
      var c := Close(cfg, sink, o.state, HardCut, false);
      if c.result != Ok then c else PttFrame(cfg, sink, c.state, x)
    else
      var t := o.state.(stored := o.state.stored + [x], source := o.state.source + [x], speech := o.state.speech + 1);
      if cfg.maxSegment != 0 && |t.stored| >= cfg.maxSegment then Close(cfg, sink, t, HardCut, false)
      else Outcome(t, Ok)
  }

  function PttFrames(cfg: Config, sink: Sink, s: State, xs: seq<Frame>): Outcome
    requires cfg.maxSpool > 0
    decreases |xs|
  {
    if xs == [] then Outcome(s, Ok)
    else
      var o := PttFrame(cfg, sink, s, xs[0]);
      if o.result != Ok then o else PttFrames(cfg, sink, o.state, xs[1..])
  }

  function PttPush(cfg: Config, sink: Sink, s: State, xs: seq<Frame>): Outcome
    requires cfg.maxSpool > 0
  {
    if s.error then Outcome(s, ErrIo)
    else if !s.pressed then Outcome(s.(source := s.source + xs), Ok)
    else PttFrames(cfg, sink, s, xs)
  }

  function PttFlush(cfg: Config, sink: Sink, s: State): Outcome {
    if s.error then Outcome(s, ErrIo)
    else if !s.open || |s.stored| == 0 then Outcome(s.(pressed := false), Ok)
    else Close(cfg, sink, s.(pressed := false), TxOff, true)
  }

  datatype PttCall = PressKey | ReleaseKey | PushFrames(frames: seq<Frame>) | FlushKey

  function PttApply(cfg: Config, sink: Sink, s: State, call: PttCall): Outcome
    requires cfg.maxSpool > 0
  {
    match call
    case PressKey => Press(cfg, sink, s)
    case ReleaseKey => Release(cfg, sink, s)
    case PushFrames(xs) => PttPush(cfg, sink, s, xs)
    case FlushKey => PttFlush(cfg, sink, s)
  }

  function PttRun(cfg: Config, sink: Sink, calls: seq<PttCall>): State
    requires cfg.maxSpool > 0
  {
    if calls == [] then IDLE
    else PttApply(cfg, sink, PttRun(cfg, sink, calls[..|calls| - 1]), calls[|calls| - 1]).state
  }

  // ----- opening a handle -----

  datatype Request = Request(
    segmentSink: bool,
    stateSink: bool,
    threshold: real,
    releaseMs: nat,
    prebufferMs: nat,
    maxSegmentMs: nat,
    minSegmentMs: nat,
    memoryBytes: nat,
    maxBytes: nat)

  datatype Opened = Rejected | Accepted(config: Config)

  const FLOAT_BYTES: nat := 4

  function OrElse(value: nat, fallback: nat): nat { if value != 0 then value else fallback }

  predicate MsFits(ms: nat) { ms <= SIZE_MAX / 16 }

  /** Parameter validation of cpkt_audio_vox_open. */
  function VoxOpen(r: Request): Opened {
    var release := OrElse(r.releaseMs, 1500);
    var least := OrElse(r.minSegmentMs, 100);
    var prebuffer := OrElse(r.prebufferMs, 10);
    var memory := OrElse(r.memoryBytes, 1048576);
    var most := OrElse(r.maxBytes, 1073741824);
    if !r.segmentSink then Rejected
    else if !(MsFits(release) && MsFits(least) && MsFits(prebuffer) && MsFits(r.maxSegmentMs)) then Rejected
    else if r.maxSegmentMs != 0 && least * 16 > r.maxSegmentMs * 16 then Rejected
    else if memory < FLOAT_BYTES || most < FLOAT_BYTES || memory > most then Rejected
    else if memory / FLOAT_BYTES > SIZE_MAX / FLOAT_BYTES || least * 16 > most / FLOAT_BYTES
            || prebuffer * 16 > SIZE_MAX / FLOAT_BYTES then Rejected
    else Accepted(Config(release * 16, r.maxSegmentMs * 16, least * 16, memory / FLOAT_BYTES, prebuffer * 16,
                         most / FLOAT_BYTES, if r.threshold > 0.0 then r.threshold else 0.05, r.stateSink))
  }

  /** Parameter validation of cpkt_audio_ptt_open: no silence release, no prebuffer, no threshold. */
  function PttOpen(r: Request): Opened {
    var least := OrElse(r.minSegmentMs, 100);
    var memory := OrElse(r.memoryBytes, 1048576);
    var most := OrElse(r.maxBytes, 1073741824);
    if !r.segmentSink || !MsFits(least) || !MsFits(r.maxSegmentMs) then Rejected
    else if r.maxSegmentMs != 0 && least * 16 > r.maxSegmentMs * 16 then Rejected
    else if memory < FLOAT_BYTES || most < FLOAT_BYTES || memory > most then Rejected
    else if memory / FLOAT_BYTES > SIZE_MAX / FLOAT_BYTES || least * 16 > most / FLOAT_BYTES then Rejected
    else Accepted(Config(0, r.maxSegmentMs * 16, least * 16, memory / FLOAT_BYTES, 0,
                         most / FLOAT_BYTES, 0.0, r.stateSink))
  }

  /** What opening guarantees of a configuration. */
  predicate Checked(cfg: Config) {
    && 0 < cfg.memoryFrames <= cfg.maxSpool
    && 0 < cfg.minSegment <= cfg.maxSpool
    && (cfg.maxSegment != 0 ==> cfg.minSegment <= cfg.maxSegment)
  }

  /** Beyond `Checked`: a prebuffer that fits the spool, which opening does not check. */
  predicate VoxReady(cfg: Config) {
    Checked(cfg) && 0 < cfg.release <= SIZE_MAX && 0.0 < cfg.threshold && cfg.prebuffer <= cfg.maxSpool
  }
}
