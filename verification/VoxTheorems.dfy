/** The VOX results: statements about every run of pushes and flushes, for every callback behaviour. */
module VoxTheorems {
  import opened Common
  import opened Segmentation
  import opened SegmentationProofs

  /** Everything the caller ever pushed, in order. */
  function Pushed(calls: seq<VoxCall>): seq<Frame> {
    if calls == [] then []
    else Pushed(calls[..|calls| - 1]) + if calls[|calls| - 1].Push? then calls[|calls| - 1].frames else []
  }

  // ----- chunking -----

  lemma CloseOkKeepsError(cfg: Config, sink: Sink, s: State, kind: Kind)
    ensures var o := Close(cfg, sink, s, kind, false);
            o.result == Ok ==> o.state.error == s.error && !o.state.open && o.state.ring == s.ring
  {
  }

  lemma {:induction false} OkKeepsError(cfg: Config, sink: Sink, s: State, x: Frame)
    requires cfg.maxSpool > 0
    ensures var o := VoxFrame(cfg, sink, s, x); o.result == Ok ==> o.state.error == s.error
    decreases Rank(cfg, s)
  {
    hide Close;
    if s.open || Loud(cfg, x) {
      var o := Ready(cfg, sink, s);
      if o.result == Ok {
        CloseOkKeepsError(cfg, sink, o.state, HardCut);
        CloseOkKeepsError(cfg, sink, Take(cfg, o.state, x), HardCut);
        CloseOkKeepsError(cfg, sink, Take(cfg, o.state, x), TxOff);
      }
      if o.result == Ok && Full(cfg, o.state) {
        var c := Close(cfg, sink, o.state, HardCut, false);
        if c.result == Ok {
          OkKeepsError(cfg, sink, c.state, x);
        }
      }
    }
  }

  lemma {:induction false} FramesSplit(cfg: Config, sink: Sink, s: State, xs: seq<Frame>, ys: seq<Frame>)
    requires cfg.maxSpool > 0
    ensures var first := VoxFrames(cfg, sink, s, xs);
            && (first.result == Ok ==> first.state.error == s.error)
            && VoxFrames(cfg, sink, s, xs + ys) ==
               if first.result == Ok then VoxFrames(cfg, sink, first.state, ys) else first
    decreases |xs|
  {
    if xs == [] {
      assert xs + ys == ys;
    } else {
      OkKeepsError(cfg, sink, s, xs[0]);
      assert (xs + ys)[1..] == xs[1..] + ys;
      var o := VoxFrame(cfg, sink, s, xs[0]);
      if o.result == Ok {
        FramesSplit(cfg, sink, o.state, xs[1..], ys);
      }
    }
  }

  /** Pushing two chunks is pushing their concatenation, in any state and for any configuration: the
      same state, the same emissions, the same result; a failed first chunk hides the second. */
  lemma PushIsChunkFree(cfg: Config, sink: Sink, s: State, xs: seq<Frame>, ys: seq<Frame>)
    requires cfg.maxSpool > 0
    ensures var first := VoxPush(cfg, sink, s, xs);
            VoxPush(cfg, sink, s, xs + ys) ==
            if first.result == Ok then VoxPush(cfg, sink, first.state, ys) else first
  {
    FramesSplit(cfg, sink, s, xs, ys);
  }

  // ----- every run -----

  lemma {:induction false} FramesKeep(cfg: Config, sink: Sink, s: State, xs: seq<Frame>)
    requires VoxReady(cfg) && VoxInv(cfg, sink, s) && !s.error
    ensures var o := VoxFrames(cfg, sink, s, xs);
            && Kept(cfg, sink, o)
            && s.source <= o.state.source <= s.source + xs
            && (o.result == Ok ==> o.state.source == s.source + xs)
    decreases |xs|
  {
    hide VoxInv;
    if xs != [] {
      FrameKeeps(cfg, sink, s, xs[0]);
      var o := VoxFrame(cfg, sink, s, xs[0]);
      assert s.source + xs == s.source + [xs[0]] + xs[1..];
      if o.result == Ok {
        FramesKeep(cfg, sink, o.state, xs[1..]);
      }
    }
  }

  /** A frame is retried at most once: after the hard cut that makes room for it no further cut can be
      needed, so the loop that steps back terminates. */
  lemma RetriedAtMostOnce(cfg: Config, sink: Sink, calls: seq<VoxCall>, x: Frame)
    requires VoxReady(cfg)
    ensures var s := VoxRun(cfg, sink, calls);
            var o := Ready(cfg, sink, s);
            var c := Close(cfg, sink, o.state, HardCut, false);
            (&& !s.error && (s.open || Loud(cfg, x)) && o.result == Ok && Full(cfg, o.state) && c.result == Ok) ==>
              && VoxFrame(cfg, sink, s, x) == VoxFrame(cfg, sink, c.state, x)
              && Rank(cfg, c.state) == 0
  {
    hide VoxRun, VoxInv, Ready, Close, Poised;
    RunKeeps(cfg, sink, calls);
    var s := VoxRun(cfg, sink, calls);
    if !s.error && (s.open || Loud(cfg, x)) {
      ReadyKeeps(cfg, sink, s, x);
      var o := Ready(cfg, sink, s);
      if o.result == Ok && Full(cfg, o.state) {
        CutKeeps(cfg, sink, o.state);
      }
    }
  }

  lemma FlushKeeps(cfg: Config, sink: Sink, s: State)
    requires VoxReady(cfg) && VoxInv(cfg, sink, s) && !s.error
    ensures var o := VoxFlush(cfg, sink, s);
            Kept(cfg, sink, o) && o.state.source == s.source && (o.result == Ok ==> !o.state.open)
  {
    if s.open {
      VoxCloses(cfg, sink, s, TxOff, true);
    }
  }

  /** Every reachable state satisfies the invariant, and has consumed what was pushed. */
  lemma {:induction false} RunKeeps(cfg: Config, sink: Sink, calls: seq<VoxCall>)
    requires VoxReady(cfg)
    ensures var s := VoxRun(cfg, sink, calls);
            VoxInv(cfg, sink, s) && s.source <= Pushed(calls) && (!s.error ==> s.source == Pushed(calls))
  {
    if calls != [] {
      var before := VoxRun(cfg, sink, calls[..|calls| - 1]);
      RunKeeps(cfg, sink, calls[..|calls| - 1]);
      hide VoxInv, VoxFrames;
      if !before.error {
        match calls[|calls| - 1] {
          case Push(xs) => FramesKeep(cfg, sink, before, xs);
          case Flush => FlushKeeps(cfg, sink, before);
        }
      }
    }
  }

  // ----- what the invariant says, entry by entry -----

  lemma {:induction false} EntryFollows(cfg: Config, sink: Sink, mode: Mode, source: seq<Frame>, out: seq<Output>,
                                        k: nat)
    requires Sound(cfg, sink, mode, source, out) && k < |out|
    ensures Follows(cfg, sink, mode, source, out[..k], out[k])
    decreases |out|
  {
    var init := out[..|out| - 1];
    if k < |init| {
      EntryFollows(cfg, sink, mode, source, init, k);
      assert init[..k] == out[..k];
    }
  }

  lemma {:induction false} EndsAscend(cfg: Config, sink: Sink, mode: Mode, source: seq<Frame>, out: seq<Output>, j: nat)
    requires Sound(cfg, sink, mode, source, out) && j <= |out|
    ensures 0 <= LastEnd(out[..j]) <= LastEnd(out) <= |source|
    decreases |out|
  {
    if j < |out| {
      var init := out[..|out| - 1];
      EndsAscend(cfg, sink, mode, source, init, j);
      assert init[..j] == out[..j];
    } else {
      assert out[..j] == out;
      if out != [] {
        EndsAscend(cfg, sink, mode, source, out[..|out| - 1], |out| - 1);
      }
    }
  }

  lemma SpanIsStretch(cfg: Config, sink: Sink, mode: Mode, source: seq<Frame>, out: seq<Output>, k: nat)
    requires Sound(cfg, sink, mode, source, out) && k < |out| && IsSpan(out[k])
    ensures IsStretch(cfg, mode, source, LastEnd(out[..k]), out[k].from, out[k].frames)
  {
    hide Sound, Delivered, Keyed, LastEnd, EndsProperly, IsShort, Stamped, Announced, IsStretch;
    EntryFollows(cfg, sink, mode, source, out, k);
  }

  /** Delivered and dropped segments never overlap and come in stream order. */
  lemma SpansAscend(cfg: Config, sink: Sink, mode: Mode, source: seq<Frame>, out: seq<Output>, j: nat, k: nat)
    requires Sound(cfg, sink, mode, source, out) && j < k < |out| && IsSpan(out[j]) && IsSpan(out[k])
    ensures End(out[j]) <= out[k].from
  {
    hide Sound, Delivered, Keyed, LastEnd, Leads, QuietFrom;
    SpanIsStretch(cfg, sink, mode, source, out, k);
    var upTo := out[..k];
    SoundPrefix(cfg, sink, mode, source, out, k);
    EndsAscend(cfg, sink, mode, source, upTo, j + 1);
    assert upTo[..j + 1] == out[..j + 1];
    Snoc(out[..j], out[j]);
    assert out[..j] + [out[j]] == out[..j + 1];
  }

  lemma {:induction false} SoundPrefix(cfg: Config, sink: Sink, mode: Mode, source: seq<Frame>, out: seq<Output>,
                                       k: nat)
    requires Sound(cfg, sink, mode, source, out) && k <= |out|
    ensures Sound(cfg, sink, mode, source, out[..k])
    decreases |out|
  {
    if k < |out| {
      SoundPrefix(cfg, sink, mode, source, out[..|out| - 1], k);
      assert out[..|out| - 1][..k] == out[..k];
    } else {
      assert out[..k] == out;
    }
  }

  // ----- the theorems -----

  /** Content: everything emitted is an exact stretch of what was pushed; segments, delivered or
      dropped, come in stream order and never overlap. */
  lemma VoxSegmentsAreExact(cfg: Config, sink: Sink, calls: seq<VoxCall>, k: nat)
    requires VoxReady(cfg)
    requires k < |VoxRun(cfg, sink, calls).out| && IsSpan(VoxRun(cfg, sink, calls).out[k])
    ensures var out := VoxRun(cfg, sink, calls).out;
            && 0 <= out[k].from && End(out[k]) <= |Pushed(calls)|
            && out[k].frames == Pushed(calls)[out[k].from..End(out[k])]
            && forall j :: 0 <= j < k && IsSpan(out[j]) ==> End(out[j]) <= out[k].from
  {
    hide VoxRun, Pushed, Sound, LastEnd, Leads, QuietFrom, Delivered, Keyed, Recording, Waiting;
    RunKeeps(cfg, sink, calls);
    var s := VoxRun(cfg, sink, calls);
    var e := s.out[k];
    SpanIsStretch(cfg, sink, Vox, s.source, s.out, k);
    assert s.source[e.from..End(e)] == Pushed(calls)[e.from..End(e)];
    forall j | 0 <= j < k && IsSpan(s.out[j])
      ensures End(s.out[j]) <= e.from
    {
      SpansAscend(cfg, sink, Vox, s.source, s.out, j, k);
    }
  }

  lemma WaitingRing(cfg: Config, s: State)
    requires Waiting(cfg, s)
    ensures |s.ring| == Min(cfg.prebuffer, |s.source| - LastEnd(s.out))
    ensures s.ring == s.source[|s.source| - |s.ring|..]
    ensures forall x :: x in s.ring ==> !Loud(cfg, x)
    ensures s.stored == [] && 0 <= LastEnd(s.out) <= |s.source|
  {
  }

  /** Between calls an open segment holds the stream since its start and the ring is empty; a waiting
      segmenter stores nothing and its ring is the newest quiet stretch of the stream, as long as the
      capacity and the previous segment allow. */
  lemma VoxStoreIsExact(cfg: Config, sink: Sink, calls: seq<VoxCall>)
    requires VoxReady(cfg) && !VoxRun(cfg, sink, calls).error
    ensures var s := VoxRun(cfg, sink, calls);
            var stream := Pushed(calls);
            && (s.open ==>
                  && s.ring == [] && 0 <= LastEnd(s.out) <= |stream| - |s.stored|
                  && s.stored == stream[|stream| - |s.stored|..]
                  && (|stream| <= SIZE_MAX ==> s.start == |stream| - |s.stored|)
                  && |s.stored| <= cfg.maxSpool && (cfg.maxSegment != 0 ==> |s.stored| < cfg.maxSegment))
            && (!s.open ==>
                  && s.stored == [] && 0 <= LastEnd(s.out) <= |stream|
                  && |s.ring| == Min(cfg.prebuffer, |stream| - LastEnd(s.out))
                  && s.ring == stream[|stream| - |s.ring|..]
                  && forall x :: x in s.ring ==> !Loud(cfg, x))
            && (cfg.stateSink ==> (s.open <==> Keyed(s.out)))
  {
    hide VoxRun, Pushed, Sound, Delivered, LastEnd, Leads, QuietFrom, CountLoud, TrailingQuiet, Keyed;
    RunKeeps(cfg, sink, calls);
    var s := VoxRun(cfg, sink, calls);
    if !s.open {
      WaitingRing(cfg, s);
    }
  }

  /** Position `i` of the stream is inside a delivered or dropped segment. */
  predicate Covered(out: seq<Output>, i: int) {
    exists k :: 0 <= k < |out| && IsSpan(out[k]) && out[k].from <= i < End(out[k])
  }

  lemma {:induction false} LoudIsCovered(cfg: Config, sink: Sink, source: seq<Frame>, out: seq<Output>, i: nat)
    requires Sound(cfg, sink, Vox, source, out)
    requires i < |source| && i < LastEnd(out) && Loud(cfg, source[i])
    ensures Covered(out, i)
    decreases |out|
  {
    var e := out[|out| - 1];
    if !(IsSpan(e) && e.from <= i < End(e)) {
      LoudIsCovered(cfg, sink, source, out[..|out| - 1], i);
      var k :| 0 <= k < |out| - 1 && IsSpan(out[..|out| - 1][k]) && out[k].from <= i < End(out[k]);
    }
  }

  /** No speech is lost: every loud frame pushed is in a delivered segment, in one dropped for being
      too short, or in the segment still open. */
  lemma NoSpeechIsLost(cfg: Config, sink: Sink, calls: seq<VoxCall>, i: nat)
    requires VoxReady(cfg)
    requires i < |Pushed(calls)| && Loud(cfg, Pushed(calls)[i])
    ensures var s := VoxRun(cfg, sink, calls);
            s.error || Covered(s.out, i) || (s.open && i >= |Pushed(calls)| - |s.stored|)
  {
    hide VoxRun, Pushed;
    RunKeeps(cfg, sink, calls);
    var s := VoxRun(cfg, sink, calls);
    if !s.error && i < LastEnd(s.out) {
      LoudIsCovered(cfg, sink, s.source, s.out, i);
    }
  }

  /** Protocol: event and segment numbers count the segments delivered before; TX_ON alternates with
      TX_OFF or HARD_CUT; a hard cut is followed at once by its segment, so it never drops. */
  lemma VoxEventsAlternate(cfg: Config, sink: Sink, calls: seq<VoxCall>, k: nat)
    requires VoxReady(cfg)
    requires k < |VoxRun(cfg, sink, calls).out|
    ensures var out := VoxRun(cfg, sink, calls).out;
            && (!out[k].Dropped? ==> out[k].index == Delivered(out[..k]))
            && (out[k].Event? ==> ((out[k].kind == TxOn) <==> !Keyed(out[..k])))
            && (IsSpan(out[k]) ==> !Keyed(out[..k]))
            && (out[k].Event? && out[k].kind == HardCut && k + 1 < |out| ==> out[k + 1].Segment? && out[k + 1].hardCut)
  {
    hide VoxRun, Pushed, Sound, LastEnd, IsStretch, Recording, Waiting, Delivered, Stamped, IsShort;
    RunKeeps(cfg, sink, calls);
    var s := VoxRun(cfg, sink, calls);
    EntryFollows(cfg, sink, Vox, s.source, s.out, k);
    if k + 1 < |s.out| {
      EntryFollows(cfg, sink, Vox, s.source, s.out, k + 1);
      assert s.out[..k + 1][|s.out[..k + 1]| - 1] == s.out[k];
    }
  }

  /** After a callback fails nothing is ever emitted again: only the newest entry can have failed,
      and then every later call changes nothing and reports an I/O error. */
  lemma FailureIsFinal(cfg: Config, sink: Sink, calls: seq<VoxCall>, more: VoxCall, k: nat)
    requires VoxReady(cfg)
    requires k < |VoxRun(cfg, sink, calls).out|
    ensures var s := VoxRun(cfg, sink, calls);
            && (!s.out[k].Dropped? && !sink(s.out[..k + 1]) ==>
                  k + 1 == |s.out| && VoxApply(cfg, sink, s, more) == Outcome(s, ErrIo))
  {
    hide VoxRun, Pushed, Sound, Recording, Waiting, EndsProperly, IsShort, IsStretch, Stamped, LastEnd, Delivered,
         Keyed, Announced;
    RunKeeps(cfg, sink, calls);
    var s := VoxRun(cfg, sink, calls);
    if k + 1 < |s.out| {
      EntryFollows(cfg, sink, Vox, s.source, s.out, k + 1);
      assert s.out[..k + 1][|s.out[..k + 1]| - 1] == s.out[k];
    } else {
      assert s.out[..k + 1] == s.out;
    }
  }

  /** Lengths and endings of delivered segments, by the way each was closed. */
  lemma VoxSegmentShape(cfg: Config, sink: Sink, calls: seq<VoxCall>, k: nat)
    requires VoxReady(cfg)
    requires k < |VoxRun(cfg, sink, calls).out| && VoxRun(cfg, sink, calls).out[k].Segment?
    ensures var e := VoxRun(cfg, sink, calls).out[k];
            var n := |e.frames|;
            && cfg.minSegment <= n <= cfg.maxSpool
            && (cfg.maxSegment != 0 ==> n <= Max(cfg.maxSegment, cfg.prebuffer + 1))
            && (e.hardCut ==>
                  && (n == cfg.maxSpool || (cfg.maxSegment != 0 && n >= cfg.maxSegment))
                  && (TrailingQuiet(cfg, e.frames) < cfg.release || TrailingQuiet(cfg, e.frames) == n))
            && (!e.hardCut && !e.final ==>
                  && cfg.release < n
                  && Loud(cfg, e.frames[n - cfg.release - 1])
                  && forall i :: n - cfg.release <= i < n ==> !Loud(cfg, e.frames[i]))
            && (e.final ==> cfg.minSegment <= CountLoud(cfg, e.frames) && TrailingQuiet(cfg, e.frames) < cfg.release)
            && (End(e) <= SIZE_MAX ==> e.start == e.from)
  {
    hide VoxRun, Pushed, Sound, LastEnd, IsStretch, Recording, Waiting, Delivered, Keyed, Announced, FloorTick,
         CeilTick;
    RunKeeps(cfg, sink, calls);
    var s := VoxRun(cfg, sink, calls);
    EntryFollows(cfg, sink, Vox, s.source, s.out, k);
  }

  /** Nothing emitted is taken back, and what a call closes is marked with whether the call is a flush. */
  ghost predicate Closes(before: seq<Output>, after: seq<Output>, final: bool) {
    before <= after && forall k :: |before| <= k < |after| && IsSpan(after[k]) ==> after[k].final == final
  }

  lemma EmitStateCloses(cfg: Config, sink: Sink, s: State, kind: Kind, final: bool)
    ensures Closes(s.out, EmitState(cfg, sink, s, kind).state.out, final)
  {
  }

  lemma SnocCloses(out: seq<Output>, e: Output, final: bool)
    requires IsSpan(e) ==> e.final == final
    ensures Closes(out, out + [e], final)
  {
  }

  lemma EmitCloses(cfg: Config, sink: Sink, s: State, hardCut: bool, final: bool)
    ensures Closes(s.out, Emit(cfg, sink, s, hardCut, final).state.out, final)
  {
    hide Closes;
    SnocCloses(s.out, SegmentOf(s, hardCut, final), final);
    SnocCloses(s.out, Dropped(From(s), s.stored, final), final);
  }

  lemma CloseCloses(cfg: Config, sink: Sink, s: State, kind: Kind, final: bool)
    ensures Closes(s.out, Close(cfg, sink, s, kind, final).state.out, final)
  {
    hide Closes, Emit, EmitState;
    EmitStateCloses(cfg, sink, s, kind, final);
    var o := EmitState(cfg, sink, s, kind);
    if o.result == Ok {
      EmitCloses(cfg, sink, o.state, kind == HardCut, final);
      ClosesTwice(s.out, o.state.out, Emit(cfg, sink, o.state, kind == HardCut, final).state.out, final);
    }
  }

  lemma ClosesTwice(a: seq<Output>, b: seq<Output>, c: seq<Output>, final: bool)
    requires Closes(a, b, final) && Closes(b, c, final)
    ensures Closes(a, c, final)
  {
    forall k | |a| <= k < |c| && IsSpan(c[k])
      ensures c[k].final == final
    {
      if k < |b| {
        assert c[k] == b[k];
      }
    }
  }

  lemma {:induction false} FrameCloses(cfg: Config, sink: Sink, s: State, x: Frame)
    requires cfg.maxSpool > 0
    ensures Closes(s.out, VoxFrame(cfg, sink, s, x).state.out, false)
    decreases Rank(cfg, s)
  {
    hide Closes, Close;
    ClosesTwice(s.out, s.out, s.out, false) by { NoneCloses(s.out, false); }
    if s.open || Loud(cfg, x) {
      ReadyCloses(cfg, sink, s);
      var o := Ready(cfg, sink, s);
      if o.result == Ok && Full(cfg, o.state) {
        CloseCloses(cfg, sink, o.state, HardCut, false);
        CloseOkKeepsError(cfg, sink, o.state, HardCut);
        var c := Close(cfg, sink, o.state, HardCut, false);
        ClosesTwice(s.out, o.state.out, c.state.out, false);
        if c.result == Ok {
          FrameCloses(cfg, sink, c.state, x);
          ClosesTwice(s.out, c.state.out, VoxFrame(cfg, sink, c.state, x).state.out, false);
        }
      } else if o.result == Ok {
        SettleCloses(cfg, sink, Take(cfg, o.state, x));
        ClosesTwice(s.out, o.state.out, Settle(cfg, sink, Take(cfg, o.state, x)).state.out, false);
      }
    }
  }

  lemma NoneCloses(out: seq<Output>, final: bool)
    ensures Closes(out, out, final)
  {
  }

  lemma ReadyCloses(cfg: Config, sink: Sink, s: State)
    ensures Closes(s.out, Ready(cfg, sink, s).state.out, false)
  {
    EmitStateCloses(cfg, sink, Opening(s), TxOn, false);
  }

  lemma SettleCloses(cfg: Config, sink: Sink, s: State)
    ensures Closes(s.out, Settle(cfg, sink, s).state.out, false)
  {
    CloseCloses(cfg, sink, s, TxOff, false);
    CloseCloses(cfg, sink, s, HardCut, false);
  }

  lemma {:induction false} FramesClose(cfg: Config, sink: Sink, s: State, xs: seq<Frame>)
    requires cfg.maxSpool > 0
    ensures Closes(s.out, VoxFrames(cfg, sink, s, xs).state.out, false)
    decreases |xs|
  {
    hide Closes, VoxFrame;
    NoneCloses(s.out, false);
    if xs != [] {
      FrameCloses(cfg, sink, s, xs[0]);
      var o := VoxFrame(cfg, sink, s, xs[0]);
      if o.result == Ok {
        FramesClose(cfg, sink, o.state, xs[1..]);
        ClosesTwice(s.out, o.state.out, VoxFrames(cfg, sink, o.state, xs[1..]).state.out, false);
      }
    }
  }

  lemma ApplyCloses(cfg: Config, sink: Sink, s: State, call: VoxCall)
    requires cfg.maxSpool > 0
    ensures Closes(s.out, VoxApply(cfg, sink, s, call).state.out, call.Flush?)
  {
    hide Closes;
    NoneCloses(s.out, call.Flush?);
    match call {
      case Push(xs) => FramesClose(cfg, sink, s, xs);
      case Flush => CloseCloses(cfg, sink, s, TxOff, true);
    }
  }

  lemma RunSnoc(cfg: Config, sink: Sink, calls: seq<VoxCall>, call: VoxCall)
    requires cfg.maxSpool > 0
    ensures VoxRun(cfg, sink, calls + [call]) == VoxApply(cfg, sink, VoxRun(cfg, sink, calls), call).state
  {
    assert (calls + [call])[..|calls|] == calls;
  }

  /** What the next call closes, it delivers or drops: a stretch closed inside a push is dropped if and only
      if it is shorter than the minimum, one closed by a flush if and only if it is that or has fewer
      loud frames than the minimum. What was emitted before stays. */
  lemma VoxDropsExactly(cfg: Config, sink: Sink, calls: seq<VoxCall>, call: VoxCall, k: nat)
    requires VoxReady(cfg)
    ensures VoxRun(cfg, sink, calls).out <= VoxRun(cfg, sink, calls + [call]).out
    ensures var out := VoxRun(cfg, sink, calls + [call]).out;
            |VoxRun(cfg, sink, calls).out| <= k < |out| && IsSpan(out[k]) ==>
              (out[k].Dropped? <==>
               || |out[k].frames| < cfg.minSegment
               || (call.Flush? && CountLoud(cfg, out[k].frames) < cfg.minSegment))
  {
    hide VoxRun, Pushed, VoxApply;
    RunSnoc(cfg, sink, calls, call);
    ApplyCloses(cfg, sink, VoxRun(cfg, sink, calls), call);
    RunKeeps(cfg, sink, calls + [call]);
    var s := VoxRun(cfg, sink, calls + [call]);
    if k < |s.out| {
      EntryFollows(cfg, sink, Vox, s.source, s.out, k);
    }
  }

  /** Every stretch, delivered or dropped, begins with the prebuffer: before its first loud frame it holds as
      many of the quiet frames since the end of the previous stretch as the prebuffer keeps. */
  lemma VoxSegmentsLead(cfg: Config, sink: Sink, calls: seq<VoxCall>, k: nat)
    requires VoxReady(cfg)
    requires k < |VoxRun(cfg, sink, calls).out| && IsSpan(VoxRun(cfg, sink, calls).out[k])
    ensures var out := VoxRun(cfg, sink, calls).out;
            var n := LeadingQuiet(cfg, out[k].frames);
            && LastEnd(out[..k]) <= out[k].from
            && n == Min(cfg.prebuffer, out[k].from + n - LastEnd(out[..k]))
  {
    hide VoxRun, Pushed, Sound, LastEnd, LeadingQuiet, QuietFrom, Delivered, Keyed, Recording, Waiting;
    RunKeeps(cfg, sink, calls);
    var s := VoxRun(cfg, sink, calls);
    SpanIsStretch(cfg, sink, Vox, s.source, s.out, k);
  }

  /** The stamps of a segment are the 10 ms units that just contain it. */
  lemma VoxStampsAreExact(cfg: Config, sink: Sink, calls: seq<VoxCall>, k: nat)
    requires VoxReady(cfg) && |Pushed(calls)| < 160 * (LONG_MAX - 1)
    requires k < |VoxRun(cfg, sink, calls).out| && VoxRun(cfg, sink, calls).out[k].Segment?
    ensures var e := VoxRun(cfg, sink, calls).out[k];
            End(e) <= SIZE_MAX ==> 160 * e.t0 <= e.from < 160 * (e.t0 + 1) && End(e) <= 160 * e.t1 < End(e) + 160
  {
    hide VoxRun, Pushed, FloorTick, CeilTick;
    VoxSegmentsAreExact(cfg, sink, calls, k);
    RunKeeps(cfg, sink, calls);
    var s := VoxRun(cfg, sink, calls);
    EntryFollows(cfg, sink, Vox, s.source, s.out, k);
    hide Sound, VoxInv, Delivered, Keyed, LastEnd, IsStretch, EndsProperly;
  }

  /** A call succeeds unless a callback has failed by its end; after a flush that succeeds nothing is open. */
  lemma VoxResultIsExact(cfg: Config, sink: Sink, calls: seq<VoxCall>, call: VoxCall)
    requires VoxReady(cfg)
    ensures var o := VoxApply(cfg, sink, VoxRun(cfg, sink, calls), call);
            && o.result == (if o.state.error then ErrIo else Ok)
            && (call.Flush? && o.result == Ok ==> !o.state.open)
  {
    hide VoxRun, Pushed, VoxInv, VoxFrames;
    RunKeeps(cfg, sink, calls);
    var s := VoxRun(cfg, sink, calls);
    if !s.error {
      match call {
        case Push(xs) => FramesKeep(cfg, sink, s, xs);
        case Flush => FlushKeeps(cfg, sink, s);
      }
    }
  }

  /** A sample and its negative are equally loud: loud is at least the threshold in either direction. */
  lemma LoudIsSymmetric(cfg: Config, x: Frame)
    requires 0.0 < cfg.threshold
    ensures Loud(cfg, x) <==> x >= cfg.threshold || -x >= cfg.threshold
  {
  }

  /** While a segment is open between calls, the silence counter is the trailing quiet run of what is
      stored and has not reached the release value; the speech counter counts the loud frames. */
  lemma VoxCountersAreExact(cfg: Config, sink: Sink, calls: seq<VoxCall>)
    requires VoxReady(cfg)
    ensures var s := VoxRun(cfg, sink, calls);
            !s.error && s.open ==>
              && s.silence == TrailingQuiet(cfg, s.stored) < cfg.release
              && s.silence < |s.stored|
              && s.speech == CountLoud(cfg, s.stored)
  {
    hide VoxRun, Pushed;
    RunKeeps(cfg, sink, calls);
  }

  lemma TickOrder(a: nat, b: nat)
    requires a <= b
    ensures CeilTick(a) <= FloorTick(b) + 1
  {
    assert a / 160 <= b / 160;
  }

  /** The 10 ms stamps of two segments overlap by at most one tick. */
  lemma VoxStampsOverlapByOneTick(cfg: Config, sink: Sink, calls: seq<VoxCall>, j: nat, k: nat)
    requires VoxReady(cfg) && |Pushed(calls)| <= SIZE_MAX
    requires j < k < |VoxRun(cfg, sink, calls).out|
    requires VoxRun(cfg, sink, calls).out[j].Segment? && VoxRun(cfg, sink, calls).out[k].Segment?
    ensures var out := VoxRun(cfg, sink, calls).out; out[j].t1 <= out[k].t0 + 1
  {
    hide VoxRun, Pushed;
    RunKeeps(cfg, sink, calls);
    var s := VoxRun(cfg, sink, calls);
    EntryFollows(cfg, sink, Vox, s.source, s.out, j);
    EntryFollows(cfg, sink, Vox, s.source, s.out, k);
    SpansAscend(cfg, sink, Vox, s.source, s.out, j, k);
    TickOrder(End(s.out[j]), s.out[k].start);
  }

  // ----- opening -----

  /** Validation guarantees everything the results above need except that the prebuffer fits. */
  lemma OpenChecksAllButThePrebuffer(r: Request)
    requires VoxOpen(r).Accepted?
    ensures var cfg := VoxOpen(r).config;
            Checked(cfg) && (VoxReady(cfg) <==> cfg.prebuffer <= cfg.maxSpool)
  {
    var cfg := VoxOpen(r).config;
    assert cfg.release == 16 * OrElse(r.releaseMs, 1500);
  }

  /** A request is accepted exactly when it names a segment callback, its times are representable, the
      minimum fits the segment limit and the spool, memory holds a frame and is within the spool, and
      the prebuffer can be allocated; times become frames at 16 per millisecond, sizes four-byte frames. */
  lemma VoxOpenAccepts(r: Request)
    requires r.maxBytes <= SIZE_MAX
    ensures var release := if r.releaseMs == 0 then 1500 else r.releaseMs;
            var least := if r.minSegmentMs == 0 then 100 else r.minSegmentMs;
            var prebuffer := if r.prebufferMs == 0 then 10 else r.prebufferMs;
            var memory := if r.memoryBytes == 0 then 1048576 else r.memoryBytes;
            var most := if r.maxBytes == 0 then 1073741824 else r.maxBytes;
            && (VoxOpen(r).Accepted? <==>
                  && r.segmentSink && 16 * release <= SIZE_MAX && 16 * least <= SIZE_MAX && 16 * prebuffer <= SIZE_MAX
                  && 16 * r.maxSegmentMs <= SIZE_MAX && (r.maxSegmentMs == 0 || least <= r.maxSegmentMs)
                  && 4 <= memory <= most && 4 * (16 * least) <= most && 4 * (16 * prebuffer) <= SIZE_MAX)
            && (VoxOpen(r).Accepted? ==>
                  var cfg := VoxOpen(r).config;
                  && cfg.release == 16 * release && cfg.minSegment == 16 * least && cfg.prebuffer == 16 * prebuffer
                  && cfg.maxSegment == 16 * r.maxSegmentMs && cfg.stateSink == r.stateSink
                  && 4 * cfg.memoryFrames <= memory < 4 * cfg.memoryFrames + 4
                  && 4 * cfg.maxSpool <= most < 4 * cfg.maxSpool + 4
                  && cfg.threshold == (if r.threshold > 0.0 then r.threshold else 0.05))
  {
  }

  /** An all-zero request with a segment callback selects the documented defaults: 1500 ms release, no
      segment limit, 100 ms minimum, 1 MiB in memory, 10 ms prebuffer, 1 GiB spool, threshold 0.05. */
  lemma OpenDefaults()
    ensures VoxOpen(Request(true, false, 0.0, 0, 0, 0, 0, 0, 0)) ==
            Accepted(Config(1500 * 16, 0, 100 * 16, 1048576 / 4, 10 * 16, 1073741824 / 4, 0.05, false))
    ensures VoxReady(VoxOpen(Request(true, false, 0.0, 0, 0, 0, 0, 0, 0)).config)
  {
  }

  /** A request that passes validation although its prebuffer exceeds the spool. */
  lemma OpenAcceptsAnOversizedPrebuffer()
    ensures var r := Request(true, true, 0.5, 0, 1000, 0, 1, 64, 64);
            VoxOpen(r).Accepted? && VoxOpen(r).config.prebuffer > VoxOpen(r).config.maxSpool
  {
  }

  predicate Willing(out: seq<Output>) { true }

  function Silence(n: nat): seq<Frame> { seq(n, _ => 0.0) }

  lemma {:induction false} SilenceFillsRing(cfg: Config, sink: Sink, s: State, n: nat)
    requires Checked(cfg) && 0.0 < cfg.threshold && !s.open && !s.error
    requires s.ring == Silence(|s.ring|) && |s.ring| + n <= cfg.prebuffer
    ensures var o := VoxFrames(cfg, sink, s, Silence(n));
            o.result == Ok && o.state == s.(source := s.source + Silence(n), ring := Silence(|s.ring| + n))
    decreases n
  {
    if n == 0 {
      assert s.source + Silence(0) == s.source;
    } else {
      var t := VoxFrame(cfg, sink, s, 0.0).state;
      assert s.ring + [0.0] == Silence(|s.ring| + 1);
      assert Silence(n)[1..] == Silence(n - 1);
      SilenceFillsRing(cfg, sink, t, n - 1);
      assert s.source + [0.0] + Silence(n - 1) == s.source + Silence(n);
    }
  }

  /** Some push of some run ends early, with AT_END, if and only if the prebuffer exceeds the spool. */
  lemma PushEndsEarlyIffPrebufferOversized(cfg: Config)
    requires Checked(cfg) && 0 < cfg.release <= SIZE_MAX && 0.0 < cfg.threshold
    ensures (exists sink: Sink, calls: seq<VoxCall>, xs: seq<Frame> ::
               VoxPush(cfg, sink, VoxRun(cfg, sink, calls), xs).result == AtEnd)
            <==> cfg.prebuffer > cfg.maxSpool
  {
    if cfg.prebuffer <= cfg.maxSpool {
      forall sink: Sink, calls: seq<VoxCall>, xs: seq<Frame>
        ensures VoxPush(cfg, sink, VoxRun(cfg, sink, calls), xs).result != AtEnd
      {
        RunKeeps(cfg, sink, calls);
        var s := VoxRun(cfg, sink, calls);
        if !s.error {
          FramesKeep(cfg, sink, s, xs);
        }
      }
    } else {
      OversizedPrebufferEndsEarly(cfg);
    }
  }

  /** With an oversized prebuffer, filling the ring with silence and then speaking ends the push with
      AT_END: the loud frame is not consumed and the ring keeps frames already stored. */
  lemma OversizedPrebufferEndsEarly(cfg: Config)
    requires Checked(cfg) && 0.0 < cfg.threshold && cfg.prebuffer > cfg.maxSpool
    ensures var quiet := Push(Silence(cfg.prebuffer));
            var o := VoxPush(cfg, Willing, VoxRun(cfg, Willing, [quiet]), [cfg.threshold]);
            && o.result == AtEnd
            && o.state.source == Silence(cfg.prebuffer)
            && o.state.ring == Silence(cfg.prebuffer)
            && o.state.stored == Silence(cfg.maxSpool)
  {
    var quiet := Push(Silence(cfg.prebuffer));
    SilenceFillsRing(cfg, Willing, IDLE, cfg.prebuffer);
    assert [quiet][..0] == [];
    var s := VoxRun(cfg, Willing, [quiet]);
    assert VoxRun(cfg, Willing, []) == IDLE;
    assert s == VoxApply(cfg, Willing, IDLE, quiet).state;
    assert s == VoxFrames(cfg, Willing, IDLE, Silence(cfg.prebuffer)).state;
    assert s.ring == Silence(cfg.prebuffer);
    assert s.ring[..cfg.maxSpool] == Silence(cfg.maxSpool);
    var o := VoxFrame(cfg, Willing, s, cfg.threshold);
    assert o == Begin(cfg, Willing, s);
  }
}
