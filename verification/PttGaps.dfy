/** How far a PTT segment's reported start is off: by exactly the frames skipped since it was opened. */
module PttGaps {
  import opened Common
  import opened Segmentation
  import opened SegmentationProofs
  import opened VoxTheorems
  import opened PttTheorems

  /** Positions of the frames that were pushed with the key up while a segment was open. */
  ghost function Skipped(cfg: Config, sink: Sink, calls: seq<PttCall>): set<nat>
    requires cfg.maxSpool > 0
  {
    if calls == [] then {}
    else
      var init, call := calls[..|calls| - 1], calls[|calls| - 1];
      var s := PttRun(cfg, sink, init);
      Skipped(cfg, sink, init) + if SkipsWhileOpen(s, call) then Stretch(|s.source|, |call.frames|) else {}
  }

  function Stretch(from: nat, n: nat): (r: set<nat>)
    ensures forall i :: i in r <==> from <= i < from + n
  {
    if n == 0 then {} else Stretch(from, n - 1) + {from + n - 1}
  }

  /** Opened at `start` and beginning at `from`, a stretch up to `end` skipped exactly what lies between. */
  predicate Gap(skipped: set<nat>, start: int, from: int, end: int) {
    && start <= from
    && (forall i :: start <= i < from ==> i in skipped)
    && (forall i :: from <= i < end ==> i !in skipped)
  }

  ghost predicate Gaps(s: State, skipped: set<nat>) {
    && |s.source| <= SIZE_MAX && |s.stored| <= |s.source|
    && (forall i :: i in skipped ==> i < |s.source|)
    && (s.open ==> Gap(skipped, s.start, From(s), |s.source|))
    && forall k :: 0 <= k < |s.out| && s.out[k].Segment? ==>
         Gap(skipped, s.out[k].start, s.out[k].from, End(s.out[k])) && End(s.out[k]) <= |s.source|
  }

  lemma EmitStateGaps(cfg: Config, sink: Sink, s: State, kind: Kind, skipped: set<nat>)
    requires Gaps(s, skipped)
    ensures Gaps(EmitState(cfg, sink, s, kind).state, skipped)
  {
  }

  lemma EmitGaps(cfg: Config, sink: Sink, s: State, hardCut: bool, final: bool, skipped: set<nat>)
    requires Gaps(s, skipped) && s.open
    ensures Gaps(Emit(cfg, sink, s, hardCut, final).state, skipped)
  {
    hide FloorTick, CeilTick;
    var t := Emit(cfg, sink, s, hardCut, final).state;
    forall k | 0 <= k < |t.out| && t.out[k].Segment?
      ensures Gap(skipped, t.out[k].start, t.out[k].from, End(t.out[k])) && End(t.out[k]) <= |t.source|
    {
      if k < |s.out| {
        assert t.out[k] == s.out[k];
      } else {
        assert t.out[k] == SegmentOf(s, hardCut, final);
      }
    }
  }

  lemma CloseGaps(cfg: Config, sink: Sink, s: State, kind: Kind, final: bool, skipped: set<nat>)
    requires Gaps(s, skipped) && s.open
    ensures Gaps(Close(cfg, sink, s, kind, final).state, skipped)
  {
    hide Gaps, Emit;
    EmitStateGaps(cfg, sink, s, kind, skipped);
    var o := EmitState(cfg, sink, s, kind);
    if o.result == Ok {
      EmitGaps(cfg, sink, o.state, kind == HardCut, final, skipped);
    }
  }

  lemma PressGaps(cfg: Config, sink: Sink, s: State, skipped: set<nat>)
    requires Gaps(s, skipped)
    ensures Gaps(Press(cfg, sink, s).state, skipped)
  {
    if !s.error && !s.open {
      var u := s.(pressed := true, open := true, start := Cursor(s), stored := [], speech := 0, silence := 0);
      EmitStateGaps(cfg, sink, u, TxOn, skipped);
    }
  }

  lemma StoreGaps(s: State, x: Frame, skipped: set<nat>)
    requires Gaps(s, skipped) && s.open && |s.source| < SIZE_MAX
    ensures Gaps(s.(stored := s.stored + [x], source := s.source + [x], speech := s.speech + 1), skipped)
  {
  }

  lemma {:induction false} FrameGaps(cfg: Config, sink: Sink, s: State, x: Frame, skipped: set<nat>)
    requires cfg.maxSpool > 0 && Gaps(s, skipped) && |s.source| < SIZE_MAX
    ensures Gaps(PttFrame(cfg, sink, s, x).state, skipped)
    ensures |PttFrame(cfg, sink, s, x).state.source| <= |s.source| + 1
    decreases if s.open && Full(cfg, s) then 1 else 0
  {
    hide Gaps;
    PressGaps(cfg, sink, s, skipped);
    var o := if s.open then Outcome(s, Ok) else Press(cfg, sink, s);
    if o.result == Ok && Full(cfg, o.state) {
      CloseGaps(cfg, sink, o.state, HardCut, false, skipped);
      var c := Close(cfg, sink, o.state, HardCut, false);
      if c.result == Ok {
        FrameGaps(cfg, sink, c.state, x, skipped);
      }
    } else if o.result == Ok {
      StoreGaps(o.state, x, skipped);
      var t := o.state.(stored := o.state.stored + [x], source := o.state.source + [x], speech := o.state.speech + 1);
      CloseGaps(cfg, sink, t, HardCut, false, skipped);
    }
  }

  lemma {:induction false} FramesGaps(cfg: Config, sink: Sink, s: State, xs: seq<Frame>, skipped: set<nat>)
    requires cfg.maxSpool > 0 && Gaps(s, skipped) && |s.source| + |xs| <= SIZE_MAX
    ensures Gaps(PttFrames(cfg, sink, s, xs).state, skipped)
    decreases |xs|
  {
    hide Gaps, PttFrame;
    if xs != [] {
      FrameGaps(cfg, sink, s, xs[0], skipped);
      var o := PttFrame(cfg, sink, s, xs[0]);
      if o.result == Ok {
        FramesGaps(cfg, sink, o.state, xs[1..], skipped);
      }
    }
  }

  lemma SkipGaps(s: State, xs: seq<Frame>, skipped: set<nat>)
    requires Gaps(s, skipped) && |s.source| + |xs| <= SIZE_MAX && (s.open ==> s.stored == [])
    ensures Gaps(s.(source := s.source + xs), if s.open then skipped + Stretch(|s.source|, |xs|) else skipped)
  {
    hide Stretch, Gap;
    var more := Stretch(|s.source|, |xs|);
    forall k | 0 <= k < |s.out| && s.out[k].Segment?
      ensures Gap(skipped + more, s.out[k].start, s.out[k].from, End(s.out[k]))
    {
      GapStays(skipped, more, s.out[k].start, s.out[k].from, End(s.out[k]), |s.source|);
    }
    if s.open {
      GapWidens(skipped, s.start, |s.source|, |xs|);
    }
  }

  lemma GapStays(skipped: set<nat>, more: set<nat>, start: int, from: int, end: int, n: nat)
    requires Gap(skipped, start, from, end) && end <= n && forall i :: i in more ==> n <= i
    ensures Gap(skipped + more, start, from, end)
  {
  }

  /** Nothing is stored yet, so what is skipped widens the gap. */
  lemma GapWidens(skipped: set<nat>, start: int, n: nat, k: nat)
    requires Gap(skipped, start, n, n)
    ensures Gap(skipped + Stretch(n, k), start, n + k, n + k)
  {
    hide Stretch;
  }

  lemma ReleaseGaps(cfg: Config, sink: Sink, s: State, skipped: set<nat>)
    requires Gaps(s, skipped)
    ensures Gaps(Release(cfg, sink, s).state, skipped)
  {
    if !s.error && s.open {
      var u := s.(pressed := false);
      EmitStateGaps(cfg, sink, u, TxOff, skipped);
      var o := EmitState(cfg, sink, u, TxOff);
      if o.result == Ok && |s.stored| != 0 {
        EmitGaps(cfg, sink, o.state, false, false, skipped);
      }
    }
  }

  lemma FlushGaps(cfg: Config, sink: Sink, s: State, skipped: set<nat>)
    requires Gaps(s, skipped)
    ensures Gaps(PttFlush(cfg, sink, s).state, skipped)
  {
    if !s.error && s.open && |s.stored| != 0 {
      CloseGaps(cfg, sink, s.(pressed := false), TxOff, true, skipped);
    }
  }

  lemma ApplyGaps(cfg: Config, sink: Sink, s: State, call: PttCall, skipped: set<nat>)
    requires Checked(cfg) && PttInv(cfg, sink, false, s) && Gaps(s, skipped)
    requires call.PushFrames? ==> |s.source| + |call.frames| <= SIZE_MAX
    ensures Gaps(PttApply(cfg, sink, s, call).state,
                 skipped + if SkipsWhileOpen(s, call) then Stretch(|s.source|, |call.frames|) else {})
  {
    hide Gaps, Sound, PttFrames, Press, Release, PttFlush;
    match call {
      case PressKey => PressGaps(cfg, sink, s, skipped);
      case ReleaseKey => ReleaseGaps(cfg, sink, s, skipped);
      case FlushKey => FlushGaps(cfg, sink, s, skipped);
      case PushFrames(xs) =>
        if !s.error && s.pressed {
          FramesGaps(cfg, sink, s, xs, skipped);
        } else if !s.error {
          SkipGaps(s, xs, skipped);
          assert xs == [] ==> Stretch(|s.source|, 0) == {};
        }
    }
    assert skipped + {} == skipped;
  }

  lemma {:induction false} RunGaps(cfg: Config, sink: Sink, calls: seq<PttCall>)
    requires Checked(cfg) && |PttPushed(calls)| <= SIZE_MAX
    ensures Gaps(PttRun(cfg, sink, calls), Skipped(cfg, sink, calls))
  {
    if calls != [] {
      hide Gaps, PttInv, PttApply;
      var init := calls[..|calls| - 1];
      RunGaps(cfg, sink, init);
      PttRunKeeps(cfg, sink, false, init);
      ApplyGaps(cfg, sink, PttRun(cfg, sink, init), calls[|calls| - 1], Skipped(cfg, sink, init));
    }
  }

  /** The frames between the start a segment reports and its first frame are exactly those that were
      skipped since it was opened: all of them were, and none of its own. */
  lemma PttStartIsOffBySkipped(cfg: Config, sink: Sink, calls: seq<PttCall>, k: nat)
    requires Checked(cfg) && |PttPushed(calls)| <= SIZE_MAX
    requires k < |PttRun(cfg, sink, calls).out| && PttRun(cfg, sink, calls).out[k].Segment?
    ensures var e := PttRun(cfg, sink, calls).out[k];
            var skipped := Skipped(cfg, sink, calls);
            && e.start <= e.from
            && (forall i :: e.start <= i < e.from ==> i in skipped)
            && (forall i :: e.from <= i < End(e) ==> i !in skipped)
  {
    hide PttRun, Skipped, PttPushed;
    RunGaps(cfg, sink, calls);
  }
}
