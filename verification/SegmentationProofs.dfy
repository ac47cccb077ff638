/** What every run of a segmenter emits, relative to the whole stream it was fed. */
module SegmentationProofs {
  import opened Common
  import opened Segmentation

  /** Which machine ran; for PTT, whether reported start positions are to be exact as well. */
  datatype Mode = Vox | Ptt(exact: bool)

  predicate ExactStarts(mode: Mode) { mode.Vox? || mode.exact }

  // ----- reading a trace -----

  /** Segments handed to the segment callback. */
  function Delivered(out: seq<Output>): nat {
    if out == [] then 0
    else Delivered(out[..|out| - 1]) + if out[|out| - 1].Segment? then 1 else 0
  }

  /** Whether the newest state event is TX_ON. */
  predicate Keyed(out: seq<Output>) {
    out != [] &&
    var e := out[|out| - 1];
    if e.Event? then e.kind == TxOn else Keyed(out[..|out| - 1])
  }

  predicate IsSpan(e: Output) { e.Segment? || e.Dropped? }

  function End(e: Output): int requires IsSpan(e) { e.from + |e.frames| }

  /** Where the newest delivered or dropped segment ended in the stream. */
  function LastEnd(out: seq<Output>): int {
    if out == [] then 0
    else if IsSpan(out[|out| - 1]) then End(out[|out| - 1])
    else LastEnd(out[..|out| - 1])
  }

  function CountLoud(cfg: Config, xs: seq<Frame>): nat {
    if xs == [] then 0
    else CountLoud(cfg, xs[..|xs| - 1]) + if Loud(cfg, xs[|xs| - 1]) then 1 else 0
  }

  /** The length of the quiet run that ends a sequence. */
  function TrailingQuiet(cfg: Config, xs: seq<Frame>): (n: nat)
    ensures n <= |xs|
    ensures forall i :: |xs| - n <= i < |xs| ==> !Loud(cfg, xs[i])
    ensures n < |xs| ==> Loud(cfg, xs[|xs| - n - 1])
  {
    if xs == [] || Loud(cfg, xs[|xs| - 1]) then 0 else TrailingQuiet(cfg, xs[..|xs| - 1]) + 1
  }

  /** The length of the quiet run that begins a sequence. */
  function LeadingQuiet(cfg: Config, xs: seq<Frame>): (n: nat)
    ensures n <= |xs|
    ensures forall i :: 0 <= i < n ==> !Loud(cfg, xs[i])
    ensures n < |xs| ==> Loud(cfg, xs[n])
  {
    if xs == [] || Loud(cfg, xs[0]) then 0 else LeadingQuiet(cfg, xs[1..]) + 1
  }

  /** A stretch that begins at `from` holds, before its first loud frame, as many of the quiet frames since
      `after` as the prebuffer keeps. */
  predicate Leads(cfg: Config, after: int, from: int, frames: seq<Frame>) {
    var n := LeadingQuiet(cfg, frames);
    from + n - after >= n && n == Min(cfg.prebuffer, from + n - after)
  }

  predicate QuietFrom(cfg: Config, source: seq<Frame>, lo: int, hi: int)
    requires 0 <= lo && hi <= |source|
  {
    forall i :: lo <= i < hi ==> !Loud(cfg, source[i])
  }

  /** The callback behind the newest entry, if it has one, returned zero. */
  ghost predicate Taken(sink: Sink, out: seq<Output>) {
    out == [] || out[|out| - 1].Dropped? || sink(out)
  }

  /** `frames` is the stretch of the stream that begins at `from`, and nothing loud lies between
      the end of the previous stretch and it in VOX mode. */
  predicate IsStretch(cfg: Config, mode: Mode, source: seq<Frame>, after: int, from: int, frames: seq<Frame>) {
    && 0 <= after <= from
    && from + |frames| <= |source|
    && frames == source[from..from + |frames|]
    && (mode.Vox? ==> QuietFrom(cfg, source, after, from) && Leads(cfg, after, from, frames))
  }

  predicate WithinBudget(cfg: Config, n: nat) {
    && n <= cfg.maxSpool
    && (cfg.maxSegment != 0 ==> n <= Max(cfg.maxSegment, cfg.prebuffer + 1))
  }

  /** How a stretch ends, by the way it was closed: by a hard cut at a limit, which never ends in the
      release run unless all of it is prebuffer; by a flush, before that run is complete; or by
      exactly that run. */
  predicate EndsProperly(cfg: Config, mode: Mode, frames: seq<Frame>, hardCut: bool, final: bool) {
    && WithinBudget(cfg, |frames|)
    && (hardCut ==> !final && (|frames| == cfg.maxSpool || (cfg.maxSegment != 0 && |frames| >= cfg.maxSegment)))
    && (mode.Vox? ==>
          var quiet := TrailingQuiet(cfg, frames);
          if hardCut then quiet < cfg.release || quiet == |frames|
          else if final then quiet < cfg.release && quiet < |frames|
          else quiet == cfg.release < |frames|)
  }

  /** Too short to deliver: fewer frames than the minimum or, at a flush, fewer loud ones. */
  predicate IsShort(cfg: Config, mode: Mode, frames: seq<Frame>, final: bool) {
    |frames| < cfg.minSegment || (final && mode.Vox? && CountLoud(cfg, frames) < cfg.minSegment)
  }

  predicate Stamped(mode: Mode, e: Output)
    requires e.Segment?
  {
    && e.t0 == FloorTick(e.start)
    && e.t1 == CeilTick(SaturatingAdd(e.start, |e.frames|))
    && e.start <= SIZE_MAX
    && (ExactStarts(mode) && End(e) <= SIZE_MAX ==> e.start == e.from)
  }

  predicate EndsInCut(out: seq<Output>) {
    out != [] && out[|out| - 1].Event? && out[|out| - 1].kind == HardCut
  }

  /** With a state callback, a segment comes right behind the event that announces it. */
  predicate Announced(cfg: Config, before: seq<Output>, kind: Kind) {
    cfg.stateSink ==> before != [] && before[|before| - 1].Event? && before[|before| - 1].kind == kind
  }

  /** Entry `e` may come right after the entries `before`. */
  ghost predicate Follows(cfg: Config, sink: Sink, mode: Mode, source: seq<Frame>, before: seq<Output>, e: Output) {
    && Taken(sink, before)
    && match e
       case Event(kind, index) =>
         && cfg.stateSink
         && index == Delivered(before)
         && ((kind == TxOn) <==> !Keyed(before))
         && !EndsInCut(before)
       case Segment(index, _, _, _, from, frames, hardCut, final) =>
         && index == Delivered(before)
         && !Keyed(before)
         && Announced(cfg, before, if hardCut then HardCut else TxOff)
         && IsStretch(cfg, mode, source, LastEnd(before), from, frames)
         && EndsProperly(cfg, mode, frames, hardCut, final)
         && !IsShort(cfg, mode, frames, final)
         && Stamped(mode, e)
       case Dropped(from, frames, final) =>
         && !Keyed(before)
         && Announced(cfg, before, TxOff)
         && IsStretch(cfg, mode, source, LastEnd(before), from, frames)
         && EndsProperly(cfg, mode, frames, false, final)
         && IsShort(cfg, mode, frames, final)
  }

  ghost predicate Sound(cfg: Config, sink: Sink, mode: Mode, source: seq<Frame>, out: seq<Output>) {
    out == [] ||
    (Sound(cfg, sink, mode, source, out[..|out| - 1]) &&
     Follows(cfg, sink, mode, source, out[..|out| - 1], out[|out| - 1]))
  }

  // ----- the invariants -----

  /** The part that still holds once a callback has failed. */
  ghost predicate Logged(cfg: Config, sink: Sink, mode: Mode, s: State) {
    && (!s.error ==> s.index == Delivered(s.out))
    && Sound(cfg, sink, mode, s.source, s.out)
    && (s.error <==> !Taken(sink, s.out))
    && 0 <= LastEnd(s.out) <= |s.source|
    && (!cfg.stateSink ==> !Keyed(s.out) && !EndsInCut(s.out))
  }

  /** The stored frames are the newest stretch of the stream and nothing loud was skipped before it. */
  predicate Tracks(cfg: Config, mode: Mode, s: State) {
    && 0 <= LastEnd(s.out) <= From(s)
    && s.stored == s.source[From(s)..]
    && (mode.Vox? ==>
          QuietFrom(cfg, s.source, LastEnd(s.out), From(s)) && Leads(cfg, LastEnd(s.out), From(s), s.stored))
    && s.start <= SIZE_MAX
    && (ExactStarts(mode) && |s.source| <= SIZE_MAX ==> s.start == From(s))
  }

  /** Closed: the ring holds the newest quiet frames, as many as fit since the last segment. */
  predicate Waiting(cfg: Config, s: State) {
    && !s.open
    && s.stored == []
    && 0 <= LastEnd(s.out) <= |s.source|
    && QuietFrom(cfg, s.source, LastEnd(s.out), |s.source|)
    && s.ring == Newest(s.source[LastEnd(s.out)..], cfg.prebuffer)
  }

  /** Open: the ring is empty and the counters say what they should about the stored frames. */
  predicate Recording(cfg: Config, s: State) {
    && s.open
    && s.ring == []
    && Tracks(cfg, Vox, s)
    && s.speech == CountLoud(cfg, s.stored)
    && s.silence == TrailingQuiet(cfg, s.stored)
    && s.silence < |s.stored|
    && s.silence < cfg.release
    && WithinBudget(cfg, |s.stored|)
    && (cfg.maxSegment != 0 ==> |s.stored| < cfg.maxSegment)
  }

  ghost predicate VoxInv(cfg: Config, sink: Sink, s: State) {
    && Logged(cfg, sink, Vox, s)
    && (!s.error ==>
      && (if s.open then Recording(cfg, s) else Waiting(cfg, s))
      && (cfg.stateSink ==> (s.open <==> Keyed(s.out)))
      && !EndsInCut(s.out))
  }

  // ----- extending a trace or the stream -----

  lemma Snoc(out: seq<Output>, e: Output)
    ensures (out + [e])[..|out| + 1 - 1] == out
    ensures Delivered(out + [e]) == Delivered(out) + if e.Segment? then 1 else 0
    ensures Keyed(out + [e]) == if e.Event? then e.kind == TxOn else Keyed(out)
    ensures LastEnd(out + [e]) == if IsSpan(e) then End(e) else LastEnd(out)
  {
    assert (out + [e])[..|out|] == out;
  }

  lemma {:induction false} GrowSource(cfg: Config, sink: Sink, mode: Mode, source: seq<Frame>, more: seq<Frame>,
                                      out: seq<Output>)
    requires Sound(cfg, sink, mode, source, out)
    ensures Sound(cfg, sink, mode, source + more, out)
  {
    hide Leads, EndsProperly, IsShort, Delivered, Keyed, LastEnd, Stamped, Announced;
    if out != [] {
      var e := out[|out| - 1];
      GrowSource(cfg, sink, mode, source, more, out[..|out| - 1]);
      if IsSpan(e) {
        assert (source + more)[e.from..End(e)] == source[e.from..End(e)];
      }
    }
  }

  lemma EmitStateKeeps(cfg: Config, sink: Sink, mode: Mode, s: State, kind: Kind)
    requires Logged(cfg, sink, mode, s) && !s.error
    requires cfg.stateSink ==> ((kind == TxOn) <==> !Keyed(s.out))
    requires !EndsInCut(s.out)
    ensures var o := EmitState(cfg, sink, s, kind);
            && Logged(cfg, sink, mode, o.state)
            && o.state == s.(out := o.state.out, error := o.state.error)
            && (o.result == Ok <==> !o.state.error)
            && o.result != AtEnd
            && LastEnd(o.state.out) == LastEnd(s.out)
            && (cfg.stateSink ==> Keyed(o.state.out) == (kind == TxOn))
            && (o.result == Ok ==> Announced(cfg, o.state.out, kind))
            && EndsInCut(o.state.out) == (cfg.stateSink && kind == HardCut)
  {
    Snoc(s.out, Event(kind, s.index));
  }

  lemma DropKeeps(cfg: Config, sink: Sink, mode: Mode, s: State, final: bool)
    requires Logged(cfg, sink, mode, s) && !s.error
    requires !Keyed(s.out) && Announced(cfg, s.out, TxOff)
    requires Tracks(cfg, mode, s)
    requires EndsProperly(cfg, mode, s.stored, false, final) && IsShort(cfg, mode, s.stored, final)
    ensures var t := s.(out := s.out + [Dropped(From(s), s.stored, final)]);
            Logged(cfg, sink, mode, t) && LastEnd(t.out) == |s.source| && !Keyed(t.out) && !EndsInCut(t.out)
  {
    var e := Dropped(From(s), s.stored, final);
    Snoc(s.out, e);
    assert Follows(cfg, sink, mode, s.source, s.out, e);
  }

  lemma DeliverKeeps(cfg: Config, sink: Sink, mode: Mode, s: State, hardCut: bool, final: bool)
    requires Logged(cfg, sink, mode, s) && !s.error
    requires !Keyed(s.out) && Announced(cfg, s.out, if hardCut then HardCut else TxOff)
    requires Tracks(cfg, mode, s)
    requires EndsProperly(cfg, mode, s.stored, hardCut, final) && !IsShort(cfg, mode, s.stored, final)
    ensures var out := s.out + [SegmentOf(s, hardCut, final)];
            && Sound(cfg, sink, mode, s.source, out)
            && Delivered(out) == s.index + 1
            && LastEnd(out) == |s.source|
            && !Keyed(out) && !EndsInCut(out)
  {
    hide Leads, QuietFrom, EndsProperly, IsShort, LastEnd, Delivered, Keyed, FloorTick, CeilTick;
    var e := SegmentOf(s, hardCut, final);
    Snoc(s.out, e);
    assert Stamped(mode, e);
    assert IsStretch(cfg, mode, s.source, LastEnd(s.out), e.from, e.frames);
    assert Follows(cfg, sink, mode, s.source, s.out, e);
  }

  lemma EmitKeeps(cfg: Config, sink: Sink, mode: Mode, s: State, hardCut: bool, final: bool)
    requires Logged(cfg, sink, mode, s) && !s.error
    requires !Keyed(s.out) && Announced(cfg, s.out, if hardCut then HardCut else TxOff)
    requires hardCut ==> !TooShort(cfg, s, final)
    requires Tracks(cfg, mode, s)
    requires s.speech == if mode.Vox? then CountLoud(cfg, s.stored) else |s.stored|
    requires EndsProperly(cfg, mode, s.stored, hardCut, final)
    ensures var o := Emit(cfg, sink, s, hardCut, final);
            && Logged(cfg, sink, mode, o.state)
            && (o.result == Ok <==> !o.state.error)
            && o.result != AtEnd
            && o.state.source == s.source && o.state.ring == s.ring && o.state.pressed == s.pressed
            && (o.result == Ok ==>
                  && LastEnd(o.state.out) == |s.source| && !Keyed(o.state.out) && !EndsInCut(o.state.out)
                  && !o.state.open && o.state.stored == [])
  {
    hide Sound, Tracks, EndsProperly, CountLoud, Delivered, Keyed, LastEnd;
    if TooShort(cfg, s, final) {
      DropKeeps(cfg, sink, mode, s, final);
    } else {
      DeliverKeeps(cfg, sink, mode, s, hardCut, final);
    }
  }

  /** A state event and the segment behind it: the trace stays sound and, unless a callback fails,
      the segmenter is closed with nothing left over. */
  lemma CloseKeeps(cfg: Config, sink: Sink, mode: Mode, s: State, kind: Kind, final: bool)
    requires Logged(cfg, sink, mode, s) && !s.error
    requires kind != TxOn && (kind == HardCut ==> !TooShort(cfg, s, final))
    requires (cfg.stateSink ==> Keyed(s.out)) && !EndsInCut(s.out)
    requires Tracks(cfg, mode, s)
    requires s.speech == if mode.Vox? then CountLoud(cfg, s.stored) else |s.stored|
    requires EndsProperly(cfg, mode, s.stored, kind == HardCut, final)
    ensures var o := Close(cfg, sink, s, kind, final);
            && Logged(cfg, sink, mode, o.state)
            && (o.result == Ok <==> !o.state.error)
            && o.result != AtEnd
            && o.state.source == s.source && o.state.ring == s.ring && o.state.pressed == s.pressed
            && (o.result == Ok ==>
                  && LastEnd(o.state.out) == |s.source| && !Keyed(o.state.out) && !EndsInCut(o.state.out)
                  && !o.state.open && o.state.stored == [])
  {
    EmitStateKeeps(cfg, sink, mode, s, kind);
    var o := EmitState(cfg, sink, s, kind);
    if o.result == Ok {
      var t := o.state;
      assert SegmentOf(t, kind == HardCut, final) == SegmentOf(s, kind == HardCut, final);
      EmitKeeps(cfg, sink, mode, t, kind == HardCut, final);
    }
  }

  /** A VOX segmenter that just closed with an empty ring is waiting. */
  lemma VoxCloses(cfg: Config, sink: Sink, s: State, kind: Kind, final: bool)
    requires Logged(cfg, sink, Vox, s) && !s.error
    requires kind != TxOn && (kind == HardCut ==> !TooShort(cfg, s, final)) && s.ring == []
    requires (cfg.stateSink ==> Keyed(s.out)) && !EndsInCut(s.out)
    requires Tracks(cfg, Vox, s)
    requires s.speech == CountLoud(cfg, s.stored)
    requires EndsProperly(cfg, Vox, s.stored, kind == HardCut, final)
    ensures var o := Close(cfg, sink, s, kind, final);
            && VoxInv(cfg, sink, o.state)
            && (o.result == Ok <==> !o.state.error)
            && o.result != AtEnd
            && o.state.source == s.source
            && (o.result == Ok ==> !o.state.open && o.state.ring == [])
  {
    CloseKeeps(cfg, sink, Vox, s, kind, final);
    var t := Close(cfg, sink, s, kind, final).state;
    if !t.error {
      assert Waiting(cfg, t);
    }
  }

  // ----- one VOX frame -----

  /** Open and about to store a frame. */
  ghost predicate Poised(cfg: Config, sink: Sink, s: State) {
    && Logged(cfg, sink, Vox, s) && !s.error && s.open && s.ring == []
    && (cfg.stateSink ==> Keyed(s.out)) && !EndsInCut(s.out)
    && Tracks(cfg, Vox, s)
    && s.speech == CountLoud(cfg, s.stored)
    && WithinBudget(cfg, |s.stored|)
  }

  /** What every step of the push loop leaves behind. */
  ghost predicate Kept(cfg: Config, sink: Sink, o: Outcome) {
    VoxInv(cfg, sink, o.state) && o.result != AtEnd && (o.result == Ok <==> !o.state.error)
  }

  lemma {:induction false} LeadGrows(cfg: Config, xs: seq<Frame>, x: Frame)
    ensures LeadingQuiet(cfg, xs) < |xs| || Loud(cfg, x) ==> LeadingQuiet(cfg, xs + [x]) == LeadingQuiet(cfg, xs)
    decreases |xs|
  {
    if xs != [] {
      LeadGrows(cfg, xs[1..], x);
      assert (xs + [x])[1..] == xs[1..] + [x];
    } else {
      assert xs + [x] == [x];
    }
  }

  /** Once a loud frame is stored, or with the one that is, the head of the stretch stays. */
  lemma LeadsOn(cfg: Config, after: int, from: int, xs: seq<Frame>, x: Frame)
    requires Leads(cfg, after, from, xs)
    requires Loud(cfg, x) || TrailingQuiet(cfg, xs) < |xs|
    ensures Leads(cfg, after, from, xs + [x])
  {
    hide LeadingQuiet, TrailingQuiet;
    LeadGrows(cfg, xs, x);
    if TrailingQuiet(cfg, xs) < |xs| {
      assert Loud(cfg, xs[|xs| - TrailingQuiet(cfg, xs) - 1]);
    }
  }

  lemma TakeKeeps(cfg: Config, sink: Sink, s: State, x: Frame)
    requires VoxReady(cfg) && Poised(cfg, sink, s) && WithinBudget(cfg, |s.stored| + 1)
    requires Loud(cfg, x) || s.silence == TrailingQuiet(cfg, s.stored) < |s.stored|
    requires s.silence < cfg.release
    ensures var t := Take(cfg, s, x);
            && Poised(cfg, sink, t)
            && t.silence == TrailingQuiet(cfg, t.stored) < |t.stored|
            && t.silence <= cfg.release
  {
    hide Sound, Delivered, Keyed, LastEnd, Leads;
    var t := Take(cfg, s, x);
    GrowSource(cfg, sink, Vox, s.source, [x], s.out);
    LeadsOn(cfg, LastEnd(s.out), From(s), s.stored, x);
    assert t.stored[..|t.stored| - 1] == s.stored;
    assert t.stored == t.source[From(t)..];
  }

  lemma SettleKeeps(cfg: Config, sink: Sink, s: State)
    requires VoxReady(cfg) && Poised(cfg, sink, s)
    requires s.silence == TrailingQuiet(cfg, s.stored) < |s.stored|
    requires s.silence <= cfg.release
    ensures var o := Settle(cfg, sink, s);
            Kept(cfg, sink, o) && o.state.source == s.source
  {
    if s.silence >= cfg.release {
      VoxCloses(cfg, sink, s, TxOff, false);
    } else if cfg.maxSegment != 0 && |s.stored| >= cfg.maxSegment {
      VoxCloses(cfg, sink, s, HardCut, false);
    }
  }

  lemma {:induction false} NoneLoud(cfg: Config, xs: seq<Frame>)
    requires forall x :: x in xs ==> !Loud(cfg, x)
    ensures CountLoud(cfg, xs) == 0
  {
    if xs != [] {
      NoneLoud(cfg, xs[..|xs| - 1]);
    }
  }

  /** The ring is the quiet tail of the stream, so it can become the head of a segment. */
  lemma RingTracks(cfg: Config, s: State, t: State)
    requires Waiting(cfg, s)
    requires t.source == s.source && LastEnd(t.out) == LastEnd(s.out) && t.stored == s.ring
    requires t.start == if Cursor(s) >= |s.ring| then Cursor(s) - |s.ring| else 0
    ensures Tracks(cfg, Vox, t)
    ensures CountLoud(cfg, t.stored) == 0 && |t.stored| <= cfg.prebuffer
  {
    var tail := s.source[LastEnd(s.out)..];
    assert s.ring == tail[|tail| - |s.ring|..] == s.source[From(t)..];
    NoneLoud(cfg, s.ring);
  }

  /** The TX_ON event of an opening. */
  lemma OpeningKeeps(cfg: Config, sink: Sink, s: State)
    requires VoxInv(cfg, sink, s) && !s.error && !s.open
    ensures var u := Opening(s);
            var o := EmitState(cfg, sink, u, TxOn);
            && Logged(cfg, sink, Vox, o.state) && o.state == u.(out := o.state.out, error := o.state.error)
            && (o.result == Ok <==> !o.state.error) && o.result != AtEnd
            && LastEnd(o.state.out) == LastEnd(s.out)
            && (cfg.stateSink ==> Keyed(o.state.out)) && !EndsInCut(o.state.out)
  {
    hide Sound, LastEnd, Delivered, Keyed, Waiting, Recording;
    EmitStateKeeps(cfg, sink, Vox, Opening(s), TxOn);
  }

  lemma RingFits(cfg: Config, sink: Sink, s: State)
    requires VoxReady(cfg) && VoxInv(cfg, sink, s) && !s.error && !s.open
    ensures Waiting(cfg, s) && |s.ring| <= cfg.prebuffer <= cfg.maxSpool
  {
    hide Sound, LastEnd, Delivered, Keyed, QuietFrom;
  }

  lemma BeginKeeps(cfg: Config, sink: Sink, s: State)
    requires VoxReady(cfg) && VoxInv(cfg, sink, s) && !s.error && !s.open
    ensures var o := Begin(cfg, sink, s);
            && (o.result == Ok ==> Poised(cfg, sink, o.state) && o.state.silence == 0)
            && (o.result != Ok ==> Kept(cfg, sink, o))
            && o.state.source == s.source
            && (o.result == Ok ==> o.state.stored == s.ring && |s.ring| <= cfg.prebuffer)
  {
    hide Sound, CountLoud, LastEnd, Delivered, Keyed, Tracks, Waiting, Recording, EmitState, EndsInCut;
    OpeningKeeps(cfg, sink, s);
    RingFits(cfg, sink, s);
    var o := EmitState(cfg, sink, Opening(s), TxOn);
    var t := o.state.(stored := s.ring, ring := []);
    RingTracks(cfg, s, t);
    assert Logged(cfg, sink, Vox, t) <==> Logged(cfg, sink, Vox, o.state);
  }

  lemma WaitKeeps(cfg: Config, sink: Sink, s: State, x: Frame)
    requires VoxInv(cfg, sink, s) && !s.error && !s.open && !Loud(cfg, x)
    ensures VoxInv(cfg, sink, s.(ring := Newest(s.ring + [x], cfg.prebuffer), source := s.source + [x]))
  {
    hide Sound, Delivered, Keyed, LastEnd, CountLoud, TrailingQuiet, Leads;
    var t := s.(ring := Newest(s.ring + [x], cfg.prebuffer), source := s.source + [x]);
    GrowSource(cfg, sink, Vox, s.source, [x], s.out);
    assert t.source[LastEnd(t.out)..] == s.source[LastEnd(s.out)..] + [x];
    assert Waiting(cfg, t);
  }

  lemma CutKeeps(cfg: Config, sink: Sink, s: State)
    requires VoxReady(cfg) && Poised(cfg, sink, s) && Full(cfg, s)
    requires TrailingQuiet(cfg, s.stored) < cfg.release || TrailingQuiet(cfg, s.stored) == |s.stored|
    ensures var o := Close(cfg, sink, s, HardCut, false);
            && Kept(cfg, sink, o) && o.state.source == s.source
            && (o.result == Ok ==> !o.state.open && o.state.ring == [])
  {
    hide Close, Sound, Tracks, Leads, Delivered, Keyed, LastEnd;
    VoxCloses(cfg, sink, s, HardCut, false);
  }

  predicate Accepts(cfg: Config, s: State, x: Frame) {
    && (Loud(cfg, x) || s.silence == TrailingQuiet(cfg, s.stored) < |s.stored|)
    && s.silence < cfg.release
    && (cfg.maxSegment != 0 ==> |s.stored| < cfg.maxSegment || |s.stored| <= cfg.prebuffer)
  }

  lemma StoreKeeps(cfg: Config, sink: Sink, s: State, x: Frame)
    requires VoxReady(cfg) && Poised(cfg, sink, s) && !Full(cfg, s)
    requires Accepts(cfg, s, x)
    ensures var o := Settle(cfg, sink, Take(cfg, s, x));
            Kept(cfg, sink, o) && o.state.source == s.source + [x]
  {
    TakeKeeps(cfg, sink, s, x);
    SettleKeeps(cfg, sink, Take(cfg, s, x));
  }

  /** Before a frame is stored: either the segment was open already, or it was opened for it. */
  lemma ReadyKeeps(cfg: Config, sink: Sink, s: State, x: Frame)
    requires VoxReady(cfg) && VoxInv(cfg, sink, s) && !s.error
    requires s.open || Loud(cfg, x)
    ensures var o := Ready(cfg, sink, s);
            && o.state.source == s.source
            && (o.result == Ok ==> Poised(cfg, sink, o.state) && Accepts(cfg, o.state, x))
            && (o.result == Ok && Full(cfg, o.state) ==>
                  && Rank(cfg, s) > 0
                  && (TrailingQuiet(cfg, o.state.stored) < cfg.release
                      || TrailingQuiet(cfg, o.state.stored) == |o.state.stored|))
            && (o.result != Ok ==> Kept(cfg, sink, o))
  {
    if !s.open {
      BeginKeeps(cfg, sink, s);
      hide Begin;
    }
  }

  /** One frame keeps the invariant; it is consumed exactly once, unless a callback fails. */
  lemma {:induction false} FrameKeeps(cfg: Config, sink: Sink, s: State, x: Frame)
    requires VoxReady(cfg) && VoxInv(cfg, sink, s) && !s.error
    ensures var o := VoxFrame(cfg, sink, s, x);
            && Kept(cfg, sink, o)
            && (o.state.source == s.source + [x] || (o.result != Ok && o.state.source == s.source))
    decreases Rank(cfg, s)
  {
    hide Ready, Close, Settle, Take, VoxInv, Poised, Accepts, Newest;
    if !s.open && !Loud(cfg, x) {
      WaitKeeps(cfg, sink, s, x);
    } else {
      ReadyKeeps(cfg, sink, s, x);
      var o := Ready(cfg, sink, s);
      if o.result == Ok && Full(cfg, o.state) {
        CutKeeps(cfg, sink, o.state);
        var c := Close(cfg, sink, o.state, HardCut, false);
        if c.result == Ok {
          FrameKeeps(cfg, sink, c.state, x);
        }
      } else if o.result == Ok {
        StoreKeeps(cfg, sink, o.state, x);
      }
    }
  }
}
