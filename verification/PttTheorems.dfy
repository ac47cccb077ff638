/** The PTT results: statements about every run of presses, releases, pushes and flushes. */
module PttTheorems {
  import opened Common
  import opened Segmentation
  import opened SegmentationProofs
  import opened VoxTheorems

  ghost predicate PttInv(cfg: Config, sink: Sink, exact: bool, s: State) {
    && Logged(cfg, sink, Ptt(exact), s)
    && (!s.error ==>
      && (cfg.stateSink ==> (s.open <==> Keyed(s.out)))
      && !EndsInCut(s.out)
      && (s.open ==> Held(cfg, exact, s))
      && (!s.open ==> s.stored == [])
      && (s.open && !s.pressed ==> s.stored == []))
  }

  /** Open: what is stored is the newest stretch of the stream, within budget. */
  predicate Held(cfg: Config, exact: bool, s: State) {
    && Tracks(cfg, Ptt(exact), s)
    && s.speech == |s.stored| <= cfg.maxSpool
    && (cfg.maxSegment != 0 ==> |s.stored| < cfg.maxSegment)
  }

  ghost predicate PttKept(cfg: Config, sink: Sink, exact: bool, o: Outcome) {
    PttInv(cfg, sink, exact, o.state) && o.result != AtEnd && (o.result == Ok <==> !o.state.error)
  }

  lemma PressKeeps(cfg: Config, sink: Sink, exact: bool, s: State)
    requires Checked(cfg) && PttInv(cfg, sink, exact, s) && !s.error
    ensures var o := Press(cfg, sink, s);
            && PttKept(cfg, sink, exact, o) && o.state.source == s.source
            && o.state.pressed && (s.open ==> o.state == s.(pressed := true))
            && (!s.open ==> o.state.open && o.state.stored == [])
  {
    hide Sound, LastEnd, Keyed, Delivered;
    if !s.open {
      var u := s.(pressed := true, open := true, start := Cursor(s), stored := [], speech := 0, silence := 0);
      EmitStateKeeps(cfg, sink, Ptt(exact), u, TxOn);
    }
  }

  lemma PttCloses(cfg: Config, sink: Sink, exact: bool, s: State, kind: Kind, final: bool)
    requires Checked(cfg) && Logged(cfg, sink, Ptt(exact), s) && !s.error
    requires (cfg.stateSink ==> Keyed(s.out)) && !EndsInCut(s.out)
    requires Tracks(cfg, Ptt(exact), s) && s.speech == |s.stored| <= cfg.maxSpool
    requires kind != TxOn && (kind == HardCut ==> !final)
    requires cfg.maxSegment != 0 ==> |s.stored| <= cfg.maxSegment
    requires kind == HardCut ==> Full(cfg, s) || (cfg.maxSegment != 0 && |s.stored| == cfg.maxSegment)
    ensures var o := Close(cfg, sink, s, kind, final);
            && PttKept(cfg, sink, exact, o) && o.state.source == s.source && o.state.pressed == s.pressed
            && (o.result == Ok ==> !o.state.open)
  {
    hide Close, Sound, LastEnd, Keyed, Delivered;
    CloseKeeps(cfg, sink, Ptt(exact), s, kind, final);
  }

  lemma PttTakes(cfg: Config, sink: Sink, exact: bool, s: State, x: Frame)
    requires Checked(cfg) && PttInv(cfg, sink, exact, s) && !s.error && s.open && s.pressed && !Full(cfg, s)
    ensures var t := s.(stored := s.stored + [x], source := s.source + [x], speech := s.speech + 1);
            && Logged(cfg, sink, Ptt(exact), t) && Tracks(cfg, Ptt(exact), t)
            && (cfg.stateSink ==> Keyed(t.out)) && !EndsInCut(t.out)
  {
    GrowSource(cfg, sink, Ptt(exact), s.source, [x], s.out);
    hide Sound;
    var t := s.(stored := s.stored + [x], source := s.source + [x], speech := s.speech + 1);
    assert t.stored == t.source[From(t)..];
  }

  /** Once a frame fits, it is stored; reaching the segment limit cuts. */
  lemma PttStoreKeeps(cfg: Config, sink: Sink, exact: bool, s: State, x: Frame)
    requires Checked(cfg) && PttInv(cfg, sink, exact, s) && !s.error && s.open && s.pressed && !Full(cfg, s)
    ensures var o := PttFrame(cfg, sink, s, x);
            PttKept(cfg, sink, exact, o) && o.state.source == s.source + [x] && o.state.pressed
  {
    PttTakes(cfg, sink, exact, s, x);
    var t := s.(stored := s.stored + [x], source := s.source + [x], speech := s.speech + 1);
    hide Close, Sound, Tracks;
    if cfg.maxSegment != 0 && |t.stored| >= cfg.maxSegment {
      PttCloses(cfg, sink, exact, t, HardCut, false);
    }
  }

  /** A full store is cut. */
  lemma PttCuts(cfg: Config, sink: Sink, exact: bool, s: State)
    requires Checked(cfg) && PttInv(cfg, sink, exact, s) && !s.error && s.open && s.pressed && Full(cfg, s)
    ensures var o := Close(cfg, sink, s, HardCut, false);
            && PttKept(cfg, sink, exact, o) && o.state.source == s.source && o.state.pressed
            && (o.result == Ok ==> !o.state.open)
  {
    hide Close, Sound, LastEnd, Keyed, Delivered;
    PttCloses(cfg, sink, exact, s, HardCut, false);
  }

  lemma {:induction false} PttFrameKeeps(cfg: Config, sink: Sink, exact: bool, s: State, x: Frame)
    requires Checked(cfg) && PttInv(cfg, sink, exact, s) && !s.error && s.pressed
    ensures var o := PttFrame(cfg, sink, s, x);
            && PttKept(cfg, sink, exact, o) && o.state.pressed
            && (o.state.source == s.source + [x] || (o.result != Ok && o.state.source == s.source))
    decreases if s.open && Full(cfg, s) then 1 else 0
  {
    hide Close, Press, PttInv;
    if s.open && Full(cfg, s) {
      PttCuts(cfg, sink, exact, s);
      var c := Close(cfg, sink, s, HardCut, false);
      if c.result == Ok {
        PttFrameKeeps(cfg, sink, exact, c.state, x);
      }
    } else if s.open {
      PttStoreKeeps(cfg, sink, exact, s, x);
    } else {
      PressKeeps(cfg, sink, exact, s);
      var o := Press(cfg, sink, s);
      if o.result == Ok {
        PttStoreKeeps(cfg, sink, exact, o.state, x);
        assert PttFrame(cfg, sink, s, x) == PttFrame(cfg, sink, o.state, x);
      }
    }
  }

  lemma {:induction false} PttFramesKeep(cfg: Config, sink: Sink, exact: bool, s: State, xs: seq<Frame>)
    requires Checked(cfg) && PttInv(cfg, sink, exact, s) && !s.error && s.pressed
    ensures var o := PttFrames(cfg, sink, s, xs);
            && PttKept(cfg, sink, exact, o)
            && s.source <= o.state.source <= s.source + xs
            && (o.result == Ok ==> o.state.source == s.source + xs)
    decreases |xs|
  {
    hide PttInv;
    if xs != [] {
      PttFrameKeeps(cfg, sink, exact, s, xs[0]);
      var o := PttFrame(cfg, sink, s, xs[0]);
      assert s.source + xs == s.source + [xs[0]] + xs[1..];
      if o.result == Ok {
        PttFramesKeep(cfg, sink, exact, o.state, xs[1..]);
      }
    }
  }

  /** The one call that makes a reported start go stale: frames pushed with the key up while a segment
      is still open, which only a flush of an empty open segment leaves behind. */
  predicate SkipsWhileOpen(s: State, call: PttCall) {
    call.PushFrames? && call.frames != [] && s.open && !s.pressed && !s.error
  }

  lemma SkipKeeps(cfg: Config, sink: Sink, exact: bool, s: State, xs: seq<Frame>)
    requires Checked(cfg) && PttInv(cfg, sink, exact, s) && !s.error && !s.pressed
    requires exact ==> !SkipsWhileOpen(s, PushFrames(xs))
    ensures PttInv(cfg, sink, exact, s.(source := s.source + xs))
  {
    GrowSource(cfg, sink, Ptt(exact), s.source, xs, s.out);
    hide Sound;
    if xs == [] {
      assert s.source + xs == s.source;
    }
  }

  lemma ReleaseKeeps(cfg: Config, sink: Sink, exact: bool, s: State)
    requires Checked(cfg) && PttInv(cfg, sink, exact, s) && !s.error
    ensures var o := Release(cfg, sink, s);
            PttKept(cfg, sink, exact, o) && o.state.source == s.source
  {
    if s.open {
      var u := s.(pressed := false);
      EmitStateKeeps(cfg, sink, Ptt(exact), u, TxOff);
      var o := EmitState(cfg, sink, u, TxOff);
      if o.result == Ok && |s.stored| != 0 {
        assert SegmentOf(o.state, false, false) == SegmentOf(s, false, false);
        EmitKeeps(cfg, sink, Ptt(exact), o.state, false, false);
        hide Emit;
      }
      hide EmitState, Sound, Keyed, Delivered, LastEnd;
    }
  }

  lemma PttFlushKeeps(cfg: Config, sink: Sink, exact: bool, s: State)
    requires Checked(cfg) && PttInv(cfg, sink, exact, s) && !s.error
    ensures var o := PttFlush(cfg, sink, s);
            PttKept(cfg, sink, exact, o) && o.state.source == s.source
  {
    if s.open && |s.stored| != 0 {
      PttCloses(cfg, sink, exact, s.(pressed := false), TxOff, true);
      hide Close;
    }
  }

  /** Everything the caller ever pushed, in order. */
  function PttPushed(calls: seq<PttCall>): seq<Frame> {
    if calls == [] then []
    else PttPushed(calls[..|calls| - 1]) + if calls[|calls| - 1].PushFrames? then calls[|calls| - 1].frames else []
  }

  /** No call of the run pushed frames with the key up while a segment was open. */
  ghost predicate NeverSkips(cfg: Config, sink: Sink, calls: seq<PttCall>)
    requires cfg.maxSpool > 0
  {
    calls == [] ||
    (NeverSkips(cfg, sink, calls[..|calls| - 1]) &&
     !SkipsWhileOpen(PttRun(cfg, sink, calls[..|calls| - 1]), calls[|calls| - 1]))
  }

  lemma ApplyKeeps(cfg: Config, sink: Sink, exact: bool, s: State, call: PttCall)
    requires Checked(cfg) && PttInv(cfg, sink, exact, s) && !s.error
    requires exact ==> !SkipsWhileOpen(s, call)
    ensures var o := PttApply(cfg, sink, s, call);
            && PttKept(cfg, sink, exact, o)
            && var xs := if call.PushFrames? then call.frames else [];
               s.source <= o.state.source <= s.source + xs && (o.result == Ok ==> o.state.source == s.source + xs)
  {
    match call {
      case PressKey => PressKeeps(cfg, sink, exact, s);
      case ReleaseKey => ReleaseKeeps(cfg, sink, exact, s);
      case FlushKey => PttFlushKeeps(cfg, sink, exact, s);
      case PushFrames(xs) =>
        if s.pressed {
          PttFramesKeep(cfg, sink, exact, s, xs);
        } else {
          SkipKeeps(cfg, sink, exact, s, xs);
        }
    }
    hide Press, Release, PttFlush, PttFrames, PttInv;
  }

  lemma {:induction false} PttRunKeeps(cfg: Config, sink: Sink, exact: bool, calls: seq<PttCall>)
    requires Checked(cfg)
    requires exact ==> NeverSkips(cfg, sink, calls)
    ensures var s := PttRun(cfg, sink, calls);
            PttInv(cfg, sink, exact, s) && s.source <= PttPushed(calls) && (!s.error ==> s.source == PttPushed(calls))
  {
    if calls != [] {
      hide PttInv;
      var before := PttRun(cfg, sink, calls[..|calls| - 1]);
      PttRunKeeps(cfg, sink, exact, calls[..|calls| - 1]);
      if !before.error {
        ApplyKeeps(cfg, sink, exact, before, calls[|calls| - 1]);
      }
    }
  }

  // ----- chunking -----

  lemma {:induction false} PttOkKeepsKey(cfg: Config, sink: Sink, s: State, x: Frame)
    requires cfg.maxSpool > 0 && !s.error && s.pressed
    ensures var o := PttFrame(cfg, sink, s, x); o.result == Ok ==> !o.state.error && o.state.pressed
    decreases if s.open && Full(cfg, s) then 1 else 0
  {
    if s.open && Full(cfg, s) {
      var c := Close(cfg, sink, s, HardCut, false);
      if c.result == Ok {
        PttOkKeepsKey(cfg, sink, c.state, x);
      }
    }
  }

  lemma {:induction false} PttFramesSplit(cfg: Config, sink: Sink, s: State, xs: seq<Frame>, ys: seq<Frame>)
    requires cfg.maxSpool > 0 && !s.error && s.pressed
    ensures var first := PttFrames(cfg, sink, s, xs);
            && (first.result == Ok ==> !first.state.error && first.state.pressed)
            && PttFrames(cfg, sink, s, xs + ys) ==
               if first.result == Ok then PttFrames(cfg, sink, first.state, ys) else first
    decreases |xs|
  {
    if xs == [] {
      assert xs + ys == ys;
    } else {
      PttOkKeepsKey(cfg, sink, s, xs[0]);
      hide PttFrame;
      assert (xs + ys)[1..] == xs[1..] + ys;
      var o := PttFrame(cfg, sink, s, xs[0]);
      if o.result == Ok {
        PttFramesSplit(cfg, sink, o.state, xs[1..], ys);
      }
    }
  }

  /** Chunking does not matter to PTT either, with the key up or down. */
  lemma PttPushIsChunkFree(cfg: Config, sink: Sink, s: State, xs: seq<Frame>, ys: seq<Frame>)
    requires cfg.maxSpool > 0
    ensures var first := PttPush(cfg, sink, s, xs);
            PttPush(cfg, sink, s, xs + ys) ==
            if first.result == Ok then PttPush(cfg, sink, first.state, ys) else first
  {
    if !s.error && s.pressed {
      PttFramesSplit(cfg, sink, s, xs, ys);
    } else {
      assert s.source + xs + ys == s.source + (xs + ys);
    }
  }

  // ----- the theorems -----

  /** Content and protocol of every PTT run: segments are exact stretches of what was pushed, ordered
      and disjoint, within the budgets; numbers count deliveries, TX_ON alternates, hard cuts deliver,
      and nothing follows a failed callback. */
  lemma PttTraceIsSound(cfg: Config, sink: Sink, calls: seq<PttCall>, k: nat)
    requires Checked(cfg)
    requires k < |PttRun(cfg, sink, calls).out|
    ensures var out := PttRun(cfg, sink, calls).out;
            var e := out[k];
            && (IsSpan(e) ==>
                  && 0 <= LastEnd(out[..k]) <= e.from && End(e) <= |PttPushed(calls)|
                  && e.frames == PttPushed(calls)[e.from..End(e)] && !Keyed(out[..k])
                  && (e.Dropped? <==> |e.frames| < cfg.minSegment))
            && (e.Segment? ==>
                  && cfg.minSegment <= |e.frames| <= cfg.maxSpool
                  && (cfg.maxSegment != 0 ==> |e.frames| <= Max(cfg.maxSegment, cfg.prebuffer + 1))
                  && (e.hardCut ==>
                        |e.frames| == cfg.maxSpool || (cfg.maxSegment != 0 && |e.frames| >= cfg.maxSegment)))
            && (!e.Dropped? ==> e.index == Delivered(out[..k]))
            && (e.Event? ==> ((e.kind == TxOn) <==> !Keyed(out[..k])))
            && (k > 0 ==> out[k - 1].Dropped? || sink(out[..k]))
            && (k > 0 && EndsInCut(out[..k]) ==> e.Segment? && e.hardCut)
  {
    hide PttRun, PttPushed;
    PttRunKeeps(cfg, sink, false, calls);
    var s := PttRun(cfg, sink, calls);
    var e := s.out[k];
    EntryFollows(cfg, sink, Ptt(false), s.source, s.out, k);
    if k > 0 {
      EntryFollows(cfg, sink, Ptt(false), s.source, s.out, k - 1);
    }
    hide PttInv, Sound;
    if IsSpan(e) {
      assert s.source[e.from..End(e)] == PttPushed(calls)[e.from..End(e)];
    }
  }

  /** Reported starts are exact in every run that never pushes with the key up while open. */
  lemma PttStartsAreExact(cfg: Config, sink: Sink, calls: seq<PttCall>, k: nat)
    requires Checked(cfg) && NeverSkips(cfg, sink, calls)
    requires k < |PttRun(cfg, sink, calls).out| && PttRun(cfg, sink, calls).out[k].Segment?
    ensures var e := PttRun(cfg, sink, calls).out[k]; End(e) <= SIZE_MAX ==> e.start == e.from
  {
    hide PttRun, PttPushed, NeverSkips;
    PttRunKeeps(cfg, sink, true, calls);
    var s := PttRun(cfg, sink, calls);
    EntryFollows(cfg, sink, Ptt(true), s.source, s.out, k);
  }

  /** Call by call the condition is exact: from a state whose start is right, a call leaves an open
      segment with a wrong start if and only if it skips frames while open. */
  lemma PttStartGoesStaleIff(cfg: Config, sink: Sink, s: State, call: PttCall)
    requires Checked(cfg) && PttInv(cfg, sink, true, s) && !s.error
    requires |PttApply(cfg, sink, s, call).state.source| <= SIZE_MAX
    ensures var t := PttApply(cfg, sink, s, call).state;
            !t.error ==> ((t.open && t.start != From(t)) <==> SkipsWhileOpen(s, call))
  {
    if !SkipsWhileOpen(s, call) {
      ApplyKeeps(cfg, sink, true, s, call);
      hide PttApply, Sound;
    }
  }

  /** Validation guarantees everything the results above need. */
  lemma PttOpenIsChecked(r: Request)
    requires PttOpen(r).Accepted?
    ensures Checked(PttOpen(r).config)
    ensures PttOpen(r).config.release == 0 && PttOpen(r).config.prebuffer == 0
  {
  }

  /** A request is accepted exactly when it names a segment callback, its times are representable, the
      minimum fits the segment limit and the spool, and memory holds a frame and is within the spool. */
  lemma PttOpenAccepts(r: Request)
    requires r.maxBytes <= SIZE_MAX
    ensures var least := if r.minSegmentMs == 0 then 100 else r.minSegmentMs;
            var memory := if r.memoryBytes == 0 then 1048576 else r.memoryBytes;
            var most := if r.maxBytes == 0 then 1073741824 else r.maxBytes;
            && (PttOpen(r).Accepted? <==>
                  && r.segmentSink && 16 * least <= SIZE_MAX && 16 * r.maxSegmentMs <= SIZE_MAX
                  && (r.maxSegmentMs == 0 || least <= r.maxSegmentMs)
                  && 4 <= memory <= most && 4 * (16 * least) <= most)
            && (PttOpen(r).Accepted? ==>
                  var cfg := PttOpen(r).config;
                  && cfg.minSegment == 16 * least && cfg.maxSegment == 16 * r.maxSegmentMs
                  && cfg.stateSink == r.stateSink
                  && 4 * cfg.memoryFrames <= memory < 4 * cfg.memoryFrames + 4
                  && 4 * cfg.maxSpool <= most < 4 * cfg.maxSpool + 4)
  {
  }

  /** The failing run: flush an empty open segment, push one frame with the key up, press, speak. The
      segment holds the stream from 1 on but reports that it starts at 0. */
  lemma PttStaleStart()
    ensures var cfg := Config(0, 1, 1, 1, 0, 1, 0.0, false);
            var out := PttRun(cfg, Willing, [PressKey, FlushKey, PushFrames([0.0]), PressKey, PushFrames([1.0])]).out;
            |out| == 1 && out[0].Segment? && out[0].frames == [1.0] && out[0].from == 1 && out[0].start == 0
  {
    var cfg := Config(0, 1, 1, 1, 0, 1, 0.0, false);
    var c := [PressKey, FlushKey, PushFrames([0.0]), PressKey, PushFrames([1.0])];
    var a := Press(cfg, Willing, IDLE).state;
    var b := PttFlush(cfg, Willing, a).state;
    var d := PttPush(cfg, Willing, b, [0.0]).state;
    var e := Press(cfg, Willing, d).state;
    var f := PttPush(cfg, Willing, e, [1.0]).state;
    assert c[..1][..0] == [] && c[..2][..1] == c[..1] && c[..3][..2] == c[..2] && c[..4][..3] == c[..3] && c[..5] == c;
    assert PttRun(cfg, Willing, c[..1]) == a;
    assert PttRun(cfg, Willing, c[..2]) == b;
    assert PttRun(cfg, Willing, c[..3]) == d;
    assert PttRun(cfg, Willing, c[..4]) == e;
    assert PttRun(cfg, Willing, c) == f;
    assert d.source == [0.0] && e == d.(pressed := true);
    assert f == PttFrame(cfg, Willing, e, 1.0).state;
  }
}
