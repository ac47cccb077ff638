/** What is spoken with the key down is kept, and nothing else: over every run of a PTT segmenter. */
module PttCoverage {
  import opened Common
  import opened Segmentation
  import opened SegmentationProofs
  import opened VoxTheorems
  import opened PttTheorems

  // ----- read off the calls alone -----

  /** Whether the key is down after these calls: a press puts it down, a release or a flush up. */
  predicate KeyDown(calls: seq<PttCall>) {
    calls != [] &&
    match calls[|calls| - 1]
    case PressKey => true
    case ReleaseKey => false
    case FlushKey => false
    case PushFrames(_) => KeyDown(calls[..|calls| - 1])
  }

  /** For every frame pushed, whether the key was down. */
  function Spoken(calls: seq<PttCall>): (r: seq<bool>)
    ensures |r| == |PttPushed(calls)|
  {
    if calls == [] then []
    else
      var init, call := calls[..|calls| - 1], calls[|calls| - 1];
      Spoken(init) + if call.PushFrames? then seq(|call.frames|, _ => KeyDown(init)) else []
  }

  // ----- what a state keeps -----

  /** Position `i` lies in a delivered or dropped stretch or in the one still open. */
  predicate Kept(s: State, i: int) {
    Covered(s.out, i) || (s.open && From(s) <= i < |s.source|)
  }

  /** From `s` to `t` the positions kept are the same, and new ones are kept if `spoken`. */
  ghost predicate KeepsOn(s: State, t: State, spoken: bool) {
    && s.source <= t.source
    && (forall i :: 0 <= i < |s.source| ==> (Kept(t, i) <==> Kept(s, i)))
    && (forall i :: |s.source| <= i < |t.source| ==> (Kept(t, i) <==> spoken))
  }

  /** Stretches lie in the past. */
  ghost predicate Past(s: State) {
    && 0 <= From(s)
    && forall k :: 0 <= k < |s.out| && IsSpan(s.out[k]) ==> 0 <= s.out[k].from && End(s.out[k]) <= |s.source|
  }

  lemma InvIsPast(cfg: Config, sink: Sink, exact: bool, s: State)
    requires PttInv(cfg, sink, exact, s) && !s.error
    ensures Past(s)
  {
    forall k | 0 <= k < |s.out| && IsSpan(s.out[k])
      ensures 0 <= s.out[k].from && End(s.out[k]) <= |s.source|
    {
      SpanIsStretch(cfg, sink, Ptt(exact), s.source, s.out, k);
    }
  }

  lemma CoveredSnoc(out: seq<Output>, e: Output, i: int)
    ensures Covered(out + [e], i) <==> Covered(out, i) || (IsSpan(e) && e.from <= i < End(e))
  {
    var more := out + [e];
    if Covered(out, i) {
      var k :| 0 <= k < |out| && IsSpan(out[k]) && out[k].from <= i < End(out[k]);
      assert more[k] == out[k];
    }
    if IsSpan(e) && e.from <= i < End(e) {
      assert more[|out|] == e;
    }
  }

  lemma EmitStateKeepsOn(cfg: Config, sink: Sink, s: State, kind: Kind, spoken: bool)
    ensures KeepsOn(s, EmitState(cfg, sink, s, kind).state, spoken)
  {
    hide Covered;
    forall i ensures Covered(s.out + [Event(kind, s.index)], i) <==> Covered(s.out, i) {
      CoveredSnoc(s.out, Event(kind, s.index), i);
    }
  }

  lemma EmitKeepsOn(cfg: Config, sink: Sink, s: State, hardCut: bool, final: bool, spoken: bool)
    requires s.open
    ensures KeepsOn(s, Emit(cfg, sink, s, hardCut, final).state, spoken)
  {
    hide Covered, FloorTick, CeilTick;
    forall i
      ensures Covered(s.out + [SegmentOf(s, hardCut, final)], i) <==> Covered(s.out, i) || From(s) <= i < |s.source|
      ensures Covered(s.out + [Dropped(From(s), s.stored, final)], i)
              <==> Covered(s.out, i) || From(s) <= i < |s.source|
    {
      CoveredSnoc(s.out, SegmentOf(s, hardCut, final), i);
      CoveredSnoc(s.out, Dropped(From(s), s.stored, final), i);
    }
  }

  lemma KeepsOnTwice(a: State, b: State, c: State, spoken: bool)
    requires KeepsOn(a, b, spoken) && KeepsOn(b, c, spoken)
    ensures KeepsOn(a, c, spoken)
  {
    hide Kept;
  }

  lemma CloseKeepsOn(cfg: Config, sink: Sink, s: State, kind: Kind, final: bool, spoken: bool)
    requires s.open
    ensures KeepsOn(s, Close(cfg, sink, s, kind, final).state, spoken)
  {
    hide KeepsOn, Emit;
    EmitStateKeepsOn(cfg, sink, s, kind, spoken);
    var o := EmitState(cfg, sink, s, kind);
    if o.result == Ok {
      EmitKeepsOn(cfg, sink, o.state, kind == HardCut, final, spoken);
      KeepsOnTwice(s, o.state, Emit(cfg, sink, o.state, kind == HardCut, final).state, spoken);
    }
  }

  lemma PressKeepsOn(cfg: Config, sink: Sink, s: State, spoken: bool)
    ensures KeepsOn(s, Press(cfg, sink, s).state, spoken)
    ensures Press(cfg, sink, s).result == Ok ==> Press(cfg, sink, s).state.open
  {
    if !s.error && !s.open {
      var u := s.(pressed := true, open := true, start := Cursor(s), stored := [], speech := 0, silence := 0);
      hide Covered;
      EmitStateKeepsOn(cfg, sink, u, TxOn, spoken);
      assert KeepsOn(s, u, spoken);
      KeepsOnTwice(s, u, EmitState(cfg, sink, u, TxOn).state, spoken);
    }
  }

  /** A frame that is stored is kept. */
  lemma StoreKeepsOn(s: State, x: Frame)
    requires s.open && Past(s)
    ensures KeepsOn(s, s.(stored := s.stored + [x], source := s.source + [x], speech := s.speech + 1), true)
  {
  }

  lemma {:induction false} FrameKeepsOn(cfg: Config, sink: Sink, s: State, x: Frame)
    requires Checked(cfg) && PttInv(cfg, sink, false, s) && !s.error && s.pressed
    ensures KeepsOn(s, PttFrame(cfg, sink, s, x).state, true)
    decreases if s.open && Full(cfg, s) then 1 else 0
  {
    hide KeepsOn, PttInv;
    if s.open && Full(cfg, s) {
      CloseKeepsOn(cfg, sink, s, HardCut, false, true);
      PttCuts(cfg, sink, false, s);
      var c := Close(cfg, sink, s, HardCut, false);
      if c.result == Ok {
        FrameKeepsOn(cfg, sink, c.state, x);
        KeepsOnTwice(s, c.state, PttFrame(cfg, sink, c.state, x).state, true);
      }
    } else if s.open {
      StoredKeepsOn(cfg, sink, s, x);
    } else {
      PressKeepsOn(cfg, sink, s, true);
      PressKeeps(cfg, sink, false, s);
      hide Press;
      var o := Press(cfg, sink, s);
      if o.result == Ok {
        StoredKeepsOn(cfg, sink, o.state, x);
        KeepsOnTwice(s, o.state, PttFrame(cfg, sink, o.state, x).state, true);
        assert PttFrame(cfg, sink, s, x) == PttFrame(cfg, sink, o.state, x);
      }
    }
  }

  lemma StoredKeepsOn(cfg: Config, sink: Sink, s: State, x: Frame)
    requires cfg.maxSpool > 0 && PttInv(cfg, sink, false, s) && !s.error && s.open && !Full(cfg, s)
    ensures KeepsOn(s, PttFrame(cfg, sink, s, x).state, true)
  {
    hide KeepsOn, PttInv, Close;
    InvIsPast(cfg, sink, false, s);
    StoreKeepsOn(s, x);
    var t := s.(stored := s.stored + [x], source := s.source + [x], speech := s.speech + 1);
    CloseKeepsOn(cfg, sink, t, HardCut, false, true);
    KeepsOnTwice(s, t, Close(cfg, sink, t, HardCut, false).state, true);
  }

  lemma {:induction false} FramesKeepOn(cfg: Config, sink: Sink, s: State, xs: seq<Frame>)
    requires Checked(cfg) && PttInv(cfg, sink, false, s) && !s.error && s.pressed
    ensures KeepsOn(s, PttFrames(cfg, sink, s, xs).state, true)
    decreases |xs|
  {
    hide KeepsOn, PttInv, PttFrame;
    if xs == [] {
      SameKeepsOn(s, true);
    } else {
      FrameKeepsOn(cfg, sink, s, xs[0]);
      PttFrameKeeps(cfg, sink, false, s, xs[0]);
      var o := PttFrame(cfg, sink, s, xs[0]);
      if o.result == Ok {
        FramesKeepOn(cfg, sink, o.state, xs[1..]);
        KeepsOnTwice(s, o.state, PttFrames(cfg, sink, o.state, xs[1..]).state, true);
      }
    }
  }

  lemma SameKeepsOn(s: State, spoken: bool)
    ensures KeepsOn(s, s, spoken)
  {
  }

  /** Frames pushed with the key up are not kept. */
  lemma SkipKeepsOn(s: State, xs: seq<Frame>)
    requires Past(s) && (s.open ==> s.stored == [])
    ensures KeepsOn(s, s.(source := s.source + xs), false)
  {
  }

  lemma ReleaseKeepsOn(cfg: Config, sink: Sink, s: State, spoken: bool)
    ensures KeepsOn(s, Release(cfg, sink, s).state, spoken)
  {
    hide Emit, Covered;
    SameKeepsOn(s, spoken);
    if !s.error && s.open {
      var u := s.(pressed := false);
      EmitStateKeepsOn(cfg, sink, u, TxOff, spoken);
      var o := EmitState(cfg, sink, u, TxOff);
      assert KeepsOn(s, o.state, spoken);
      if o.result == Ok && |s.stored| != 0 {
        EmitKeepsOn(cfg, sink, o.state, false, false, spoken);
        KeepsOnTwice(s, o.state, Emit(cfg, sink, o.state, false, false).state, spoken);
      }
    }
  }

  lemma FlushKeepsOn(cfg: Config, sink: Sink, s: State, spoken: bool)
    ensures KeepsOn(s, PttFlush(cfg, sink, s).state, spoken)
  {
    hide Close, Covered;
    SameKeepsOn(s, spoken);
    if !s.error && s.open && |s.stored| != 0 {
      CloseKeepsOn(cfg, sink, s.(pressed := false), TxOff, true, spoken);
      assert KeepsOn(s, s.(pressed := false), spoken);
      KeepsOnTwice(s, s.(pressed := false), PttFlush(cfg, sink, s).state, spoken);
    }
  }

  lemma ApplyKeepsOn(cfg: Config, sink: Sink, s: State, call: PttCall)
    requires Checked(cfg) && PttInv(cfg, sink, false, s) && !s.error
    ensures KeepsOn(s, PttApply(cfg, sink, s, call).state, s.pressed)
  {
    hide KeepsOn, PttFrames, Press, Release, PttFlush;
    match call {
      case PressKey => PressKeepsOn(cfg, sink, s, s.pressed);
      case ReleaseKey => ReleaseKeepsOn(cfg, sink, s, s.pressed);
      case FlushKey => FlushKeepsOn(cfg, sink, s, s.pressed);
      case PushFrames(xs) =>
        if s.pressed {
          FramesKeepOn(cfg, sink, s, xs);
        } else {
          InvIsPast(cfg, sink, false, s);
          SkipKeepsOn(s, xs);
        }
    }
  }

  // ----- the key -----

  lemma {:induction false} FramesKeepKey(cfg: Config, sink: Sink, s: State, xs: seq<Frame>)
    requires Checked(cfg) && PttInv(cfg, sink, false, s) && !s.error && s.pressed
    ensures PttFrames(cfg, sink, s, xs).state.pressed
    decreases |xs|
  {
    hide PttInv, PttFrame;
    if xs != [] {
      PttFrameKeeps(cfg, sink, false, s, xs[0]);
      var o := PttFrame(cfg, sink, s, xs[0]);
      if o.result == Ok {
        FramesKeepKey(cfg, sink, o.state, xs[1..]);
      }
    }
  }

  lemma ApplyKey(cfg: Config, sink: Sink, s: State, call: PttCall)
    requires Checked(cfg) && PttInv(cfg, sink, false, s) && !s.error
    ensures var t := PttApply(cfg, sink, s, call).state;
            && t.pressed == (if call.PushFrames? then s.pressed else call.PressKey?)
            && (!t.error && call.PressKey? ==> t.open)
            && (!t.error && call.ReleaseKey? ==> !t.open)
            && (!t.error && call.FlushKey? && t.open ==> t.stored == [])
  {
    match call {
      case PushFrames(xs) =>
        if s.pressed {
          hide PttInv, PttFrames;
          FramesKeepKey(cfg, sink, s, xs);
        }
      case _ => hide PttFrames, Sound;
    }
  }

  ghost predicate Marks(s: State, spoken: seq<bool>) {
    |s.source| <= |spoken| && forall i :: 0 <= i < |s.source| ==> (Kept(s, i) <==> spoken[i])
  }

  lemma MarksOn(s: State, t: State, spoken: seq<bool>, more: seq<bool>)
    requires Marks(s, spoken) && |spoken| == |s.source| && KeepsOn(s, t, s.pressed)
    requires |t.source| <= |s.source| + |more| && forall i :: 0 <= i < |more| ==> more[i] == s.pressed
    ensures Marks(t, spoken + more)
  {
    hide Kept;
  }

  lemma MarksStay(s: State, spoken: seq<bool>, more: seq<bool>)
    requires Marks(s, spoken)
    ensures Marks(s, spoken + more)
  {
    hide Kept;
  }

  lemma {:induction false} RunMarks(cfg: Config, sink: Sink, calls: seq<PttCall>)
    requires Checked(cfg)
    ensures var s := PttRun(cfg, sink, calls);
            Marks(s, Spoken(calls)) && (!s.error ==> s.pressed == KeyDown(calls))
  {
    if calls != [] {
      hide PttInv, Kept, KeepsOn, PttApply;
      var init, call := calls[..|calls| - 1], calls[|calls| - 1];
      var s := PttRun(cfg, sink, init);
      RunMarks(cfg, sink, init);
      PttRunKeeps(cfg, sink, false, init);
      var more := if call.PushFrames? then seq(|call.frames|, _ => KeyDown(init)) else [];
      if s.error {
        ErrorStays(cfg, sink, s, call);
        MarksStay(s, Spoken(init), more);
      } else {
        ApplyKeepsOn(cfg, sink, s, call);
        ApplyKey(cfg, sink, s, call);
        ApplyKeeps(cfg, sink, false, s, call);
        MarksOn(s, PttApply(cfg, sink, s, call).state, Spoken(init), more);
      }
    }
  }

  lemma ErrorStays(cfg: Config, sink: Sink, s: State, call: PttCall)
    requires cfg.maxSpool > 0 && s.error
    ensures PttApply(cfg, sink, s, call) == Outcome(s, ErrIo)
  {
  }

  // ----- the theorems -----

  /** In every run a frame that was consumed lies in a delivered stretch, in one dropped for being too short,
      or in the one still open, if and only if the key was down when it was pushed. */
  lemma PttKeepsExactlyTheSpoken(cfg: Config, sink: Sink, calls: seq<PttCall>, i: nat)
    requires Checked(cfg) && i < |PttRun(cfg, sink, calls).source|
    ensures var s := PttRun(cfg, sink, calls);
            && |s.source| <= |Spoken(calls)| && (!s.error ==> |s.source| == |PttPushed(calls)|)
            && (Spoken(calls)[i] <==> Covered(s.out, i) || (s.open && |s.source| - |s.stored| <= i))
  {
    hide PttRun, Spoken, PttPushed, PttInv, Covered;
    RunMarks(cfg, sink, calls);
    PttRunKeeps(cfg, sink, false, calls);
  }

  lemma KeySnoc(calls: seq<PttCall>, call: PttCall)
    ensures KeyDown(calls + [call]) == if call.PushFrames? then KeyDown(calls) else call.PressKey?
  {
    assert (calls + [call])[..|calls|] == calls;
  }

  /** The key is followed: a press opens, a release closes, a flush leaves nothing stored. */
  lemma PttKeyIsFollowed(cfg: Config, sink: Sink, calls: seq<PttCall>, call: PttCall)
    requires Checked(cfg)
    ensures var o := PttApply(cfg, sink, PttRun(cfg, sink, calls), call);
            && o.result == (if o.state.error then ErrIo else Ok)
            && (o.result == Ok ==>
                  && o.state.pressed == KeyDown(calls + [call])
                  && (call.PressKey? ==> o.state.open)
                  && (call.ReleaseKey? ==> !o.state.open)
                  && (call.FlushKey? && o.state.open ==> o.state.stored == [])
                  && (cfg.stateSink ==> (o.state.open <==> Keyed(o.state.out))))
  {
    hide PttRun, PttApply, PttPushed, Spoken, Marks, KeyDown, Sound, Keyed, Held, Delivered, LastEnd, EndsInCut;
    var s := PttRun(cfg, sink, calls);
    RunMarks(cfg, sink, calls);
    PttRunKeeps(cfg, sink, false, calls);
    KeySnoc(calls, call);
    if s.error {
      ErrorStays(cfg, sink, s, call);
    } else {
      ApplyKeeps(cfg, sink, false, s, call);
      ApplyKey(cfg, sink, s, call);
    }
  }

  /** Between calls an open segment holds the newest frames of the stream, within the limits; a closed one
      holds nothing. */
  lemma PttStoreIsExact(cfg: Config, sink: Sink, calls: seq<PttCall>)
    requires Checked(cfg) && !PttRun(cfg, sink, calls).error
    ensures var s := PttRun(cfg, sink, calls);
            var stream := PttPushed(calls);
            && |s.stored| <= |stream| && s.stored == stream[|stream| - |s.stored|..]
            && (!s.open ==> s.stored == [])
            && |s.stored| <= cfg.maxSpool && (cfg.maxSegment != 0 && s.open ==> |s.stored| < cfg.maxSegment)
  {
    hide PttRun, PttPushed, Sound, LastEnd, Keyed, Delivered;
    PttRunKeeps(cfg, sink, false, calls);
  }

  /** What a call closes is marked by it: frames close with a hard cut, a flush is final, a release neither. */
  ghost predicate Closed(before: seq<Output>, after: seq<Output>, call: PttCall) {
    && before <= after
    && forall k :: |before| <= k < |after| && IsSpan(after[k]) ==>
         && after[k].final == call.FlushKey?
         && (after[k].Segment? ==> after[k].hardCut == call.PushFrames?)
         && (after[k].Dropped? ==> !call.PushFrames?)
  }

  lemma ClosedTwice(a: seq<Output>, b: seq<Output>, c: seq<Output>, call: PttCall)
    requires Closed(a, b, call) && Closed(b, c, call)
    ensures Closed(a, c, call)
  {
    forall k | |a| <= k < |c| && IsSpan(c[k])
      ensures c[k].final == call.FlushKey? && (c[k].Segment? ==> c[k].hardCut == call.PushFrames?)
      ensures c[k].Dropped? ==> !call.PushFrames?
    {
      if k < |b| {
        assert c[k] == b[k];
      }
    }
  }

  lemma CloseIsClosed(cfg: Config, sink: Sink, s: State, kind: Kind, final: bool, call: PttCall)
    requires kind != TxOn && final == call.FlushKey? && (kind == HardCut <==> call.PushFrames?)
    requires kind == HardCut ==> cfg.minSegment <= |s.stored|
    ensures Closed(s.out, Close(cfg, sink, s, kind, final).state.out, call)
  {
    hide Emit, EmitState;
    var o := EmitState(cfg, sink, s, kind);
    EventIsClosed(cfg, sink, s, kind, call);
    if o.result == Ok {
      EmitIsClosed(cfg, sink, o.state, kind == HardCut, final, call);
      ClosedTwice(s.out, o.state.out, Emit(cfg, sink, o.state, kind == HardCut, final).state.out, call);
    }
  }

  lemma EventIsClosed(cfg: Config, sink: Sink, s: State, kind: Kind, call: PttCall)
    ensures var o := EmitState(cfg, sink, s, kind);
            Closed(s.out, o.state.out, call) && o.state.stored == s.stored && o.state.open == s.open
  {
  }

  lemma EmitIsClosed(cfg: Config, sink: Sink, s: State, hardCut: bool, final: bool, call: PttCall)
    requires final == call.FlushKey? && hardCut == call.PushFrames? && (hardCut ==> cfg.minSegment <= |s.stored|)
    ensures Closed(s.out, Emit(cfg, sink, s, hardCut, final).state.out, call)
  {
    hide FloorTick, CeilTick;
    var out := Emit(cfg, sink, s, hardCut, final).state.out;
    assert out == s.out + [SegmentOf(s, hardCut, final)] || out == s.out + [Dropped(From(s), s.stored, final)];
  }

  lemma PressIsClosed(cfg: Config, sink: Sink, s: State, call: PttCall)
    ensures Closed(s.out, Press(cfg, sink, s).state.out, call)
    ensures !s.open && Press(cfg, sink, s).result == Ok ==> Press(cfg, sink, s).state.stored == []
  {
  }

  lemma {:induction false} FrameIsClosed(cfg: Config, sink: Sink, s: State, x: Frame, call: PttCall)
    requires Checked(cfg) && call.PushFrames?
    ensures Closed(s.out, PttFrame(cfg, sink, s, x).state.out, call)
    decreases if s.open && Full(cfg, s) then 1 else 0
  {
    hide Closed, Press, Close;
    PressIsClosed(cfg, sink, s, call);
    ClosedNone(s.out, call);
    var o := if s.open then Outcome(s, Ok) else Press(cfg, sink, s);
    if o.result == Ok && Full(cfg, o.state) {
      CloseIsClosed(cfg, sink, o.state, HardCut, false, call);
      var c := Close(cfg, sink, o.state, HardCut, false);
      ClosedTwice(s.out, o.state.out, c.state.out, call);
      if c.result == Ok {
        CloseOkKeepsError(cfg, sink, o.state, HardCut);
        FrameIsClosed(cfg, sink, c.state, x, call);
        ClosedTwice(s.out, c.state.out, PttFrame(cfg, sink, c.state, x).state.out, call);
      }
    } else if o.result == Ok {
      var t := o.state.(stored := o.state.stored + [x], source := o.state.source + [x], speech := o.state.speech + 1);
      if cfg.maxSegment != 0 && |t.stored| >= cfg.maxSegment {
        CloseIsClosed(cfg, sink, t, HardCut, false, call);
        ClosedTwice(s.out, t.out, Close(cfg, sink, t, HardCut, false).state.out, call);
      }
    }
  }

  lemma ClosedNone(out: seq<Output>, call: PttCall)
    ensures Closed(out, out, call)
  {
  }

  lemma {:induction false} FramesAreClosed(cfg: Config, sink: Sink, s: State, xs: seq<Frame>, call: PttCall)
    requires Checked(cfg) && call.PushFrames?
    ensures Closed(s.out, PttFrames(cfg, sink, s, xs).state.out, call)
    decreases |xs|
  {
    hide Closed, PttFrame;
    ClosedNone(s.out, call);
    if xs != [] {
      FrameIsClosed(cfg, sink, s, xs[0], call);
      var o := PttFrame(cfg, sink, s, xs[0]);
      if o.result == Ok {
        FramesAreClosed(cfg, sink, o.state, xs[1..], call);
        ClosedTwice(s.out, o.state.out, PttFrames(cfg, sink, o.state, xs[1..]).state.out, call);
      }
    }
  }

  /** In every run, what a call closes inside a push is cut and delivered, what a release or a flush closes is
      neither cut nor, unless it is shorter than the minimum, dropped; what was emitted before stays. */
  lemma PttClosesByCall(cfg: Config, sink: Sink, calls: seq<PttCall>, call: PttCall)
    requires Checked(cfg)
    ensures var s := PttRun(cfg, sink, calls); Closed(s.out, PttApply(cfg, sink, s, call).state.out, call)
  {
    hide Closed, PttRun, PttFrames, Emit, Close, Press;
    var s := PttRun(cfg, sink, calls);
    ClosedNone(s.out, call);
    match call {
      case PressKey => PressIsClosed(cfg, sink, s, call);
      case ReleaseKey =>
        EventIsClosed(cfg, sink, s.(pressed := false), TxOff, call);
        var o := EmitState(cfg, sink, s.(pressed := false), TxOff);
        EmitIsClosed(cfg, sink, o.state, false, false, call);
        ClosedTwice(s.out, o.state.out, Emit(cfg, sink, o.state, false, false).state.out, call);
      case FlushKey => CloseIsClosed(cfg, sink, s.(pressed := false), TxOff, true, call);
      case PushFrames(xs) => FramesAreClosed(cfg, sink, s, xs, call);
    }
  }

  /** After a callback fails every later call changes nothing and reports the error. */
  lemma PttFailureIsFinal(cfg: Config, sink: Sink, calls: seq<PttCall>, more: PttCall, k: nat)
    requires Checked(cfg)
    requires k < |PttRun(cfg, sink, calls).out|
    ensures var s := PttRun(cfg, sink, calls);
            !s.out[k].Dropped? && !sink(s.out[..k + 1]) ==>
              k + 1 == |s.out| && PttApply(cfg, sink, s, more) == Outcome(s, ErrIo)
  {
    hide PttRun, PttPushed, PttApply;
    PttRunKeeps(cfg, sink, false, calls);
    var s := PttRun(cfg, sink, calls);
    if k + 1 < |s.out| {
      PttTraceIsSound(cfg, sink, calls, k + 1);
    } else {
      assert s.out[..k + 1] == s.out;
      if s.error {
        ErrorStays(cfg, sink, s, more);
      }
    }
  }
}
