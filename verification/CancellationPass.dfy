/** One cancellation pass of AsyncOperations from beginning to end, whatever is nested inside it. */
module CancellationPass {
  import opened Common
  import opened AsyncOperations
  import opened AsyncProofs

  /** The state after further actions. */
  function After(s: State, actions: seq<Action>): State
    decreases |actions|
  {
    if actions == [] then s else After(Apply(s, actions[0]), actions[1..])
  }

  /** The frame at height `d` is still there when each of the actions is taken. */
  predicate Outlives(s: State, actions: seq<Action>, d: nat)
    decreases |actions|
  {
    actions == [] || (|s.stack| > d && Outlives(Apply(s, actions[0]), actions[1..], d))
  }

  /** A reference on `id` was dropped between two states. */
  predicate Drops(s: State, t: State, id: Id) {
    id in s.ops && (id !in t.ops || t.ops[id].references < s.ops[id].references)
  }

  /** The operation on which the pass at height `d` drops a reference in this step, if it does: the one
      whose count falls in a turn of the loop taken while that frame is on top. */
  ghost function UnpinnedBy(s: State, a: Action, d: nat): seq<Id> {
    var t := Apply(s, a);
    if a.Advance? && |s.stack| == d + 1 && exists id :: Drops(s, t, id)
    then var id :| Drops(s, t, id); [id] else []
  }

  /** All of them, in order. */
  ghost function Unpinned(s: State, actions: seq<Action>, d: nat): seq<Id>
    decreases |actions|
  {
    if actions == [] then []
    else UnpinnedBy(s, actions[0], d) + Unpinned(Apply(s, actions[0]), actions[1..], d)
  }

  lemma ApplyKeeps(s: State, a: Action)
    requires Inv(s)
    ensures Inv(Apply(s, a)) && (Enabled(s, a) ==> Apply(s, a) == Step(s, a))
  {
    hide Inv;
    if Enabled(s, a) {
      StepKeeps(s, a);
    }
  }

  lemma UnrefDrops(s: State, id: Id, other: Id)
    requires id in s.ops && s.ops[id].references > 0
    ensures Drops(s, Unref(s, id), other) <==> other == id
    ensures Unref(s, id).stack == s.stack
  {
  }

  /** A frame that is not on top is left alone by every action, and one on top by all but its own. */
  lemma LowerFramesStay(s: State, a: Action, d: nat)
    requires Inv(s) && d < |s.stack| && s.stack[d].Cancelling?
    requires |s.stack| > d + 1 || !a.Advance?
    ensures d < |Apply(s, a).stack| && Apply(s, a).stack[d] == s.stack[d]
  {
    hide Inv, Unref;
    ApplyKeeps(s, a);
    if Enabled(s, a) {
      StepKeeps(s, a);
      StepFrames(s, a);
    }
  }

  /** A step replaces or removes the top frame, or puts one above it. */
  lemma StepFrames(s: State, a: Action)
    requires Enabled(s, a) && Safe(s, a)
    ensures var t := Step(s, a);
            || (!a.SubmitReturns? && !a.CallbackReturns? && !a.Advance? && s.stack <= t.stack)
            || (s.stack != [] && s.stack[..|s.stack| - 1] <= t.stack && (Top(s).Cancelling? ==> a.Advance?))
  {
    match a {
      case SubmitReturns(accepted) =>
        var op, t := Top(s).op, Pop(s);
        if t.ops[op].completed {
          UnrefDrops(t, op, op);
        } else if accepted {
          UnrefDrops(t.(registry := t.registry + [op]), op, op);
        } else {
          var u := t.(native := t.native - {op});
          UnrefDrops(u, op, op);
          UnrefDrops(Unref(u, op), op, op);
        }
      case CallbackReturns => UnrefDrops(Pop(s), Top(s).op, Top(s).op);
      case Advance => if Top(s).phase != Broad && Top(s).operation.Some? { LeaveFrames(s); }
      case _ =>
    }
  }

  lemma LeaveFrames(s: State)
    requires Enabled(s, Advance) && Safe(s, Advance) && Top(s).operation.Some? && Top(s).phase != Broad
    ensures s.stack[..|s.stack| - 1] <= AdvanceCancel(s).stack
  {
    hide Unref;
    var f := Top(s);
    var op := f.operation.value;
    var g := f.(next := Successor(s.registry, op));
    UnrefDrops(Past(s, f), op, op);
    UnrefDrops(Past(s, g), op, op);
  }

  /** Dropping the reference on the current operation. */
  ghost predicate MovesOn(s: State, t: State, f: Frame)
    requires f.Cancelling? && s.stack != []
  {
    && f.visited < |f.pass| && (forall id :: Drops(s, t, id) <==> id == f.pass[f.visited])
    && (if f.visited + 1 < |f.pass|
        then && |t.stack| == |s.stack| && Top(t).Cancelling? && Top(t).context == f.context && Top(t).pass == f.pass
             && Top(t).visited == f.visited + 1
        else |t.stack| == |s.stack| - 1)
  }

  /** No reference is dropped and the pass keeps its place. */
  ghost predicate StaysPut(s: State, t: State, f: Frame)
    requires f.Cancelling? && s.stack != []
  {
    && |t.stack| == |s.stack| && Top(t).Cancelling? && Top(t).context == f.context && Top(t).pass == f.pass
    && Top(t).visited == f.visited
    && forall id :: !Drops(s, t, id)
  }

  /** An empty pass ends. */
  ghost predicate EndsEmpty(s: State, t: State, f: Frame)
    requires f.Cancelling?
  {
    f.pass == [] && |t.stack| == |s.stack| - 1 && forall id :: !Drops(s, t, id)
  }

  lemma LeaveMovesOn(s: State, f: Frame)
    requires s.stack != [] && f.Cancelling? && FrameSound(s.ops, s.registry, f) && f.operation.Some?
    requires f.operation.value in s.ops && s.ops[f.operation.value].references > 0
    ensures MovesOn(s, Leave(s, f), f)
  {
    hide Unref;
    var op := f.operation.value;
    assert f.pass[f.visited..][0] == op;
    assert f.visited + 1 < |f.pass| ==> op != f.pass[|f.pass| - 1];
    var p := Past(s, f);
    assert p.ops == s.ops;
    forall id
      ensures Drops(s, Leave(s, f), id) <==> id == op
    {
      UnrefDrops(p, op, id);
    }
    UnrefDrops(p, op, op);
  }

  /** A turn of the loop drops no reference and keeps the place of the pass, or drops the one on the
      current operation and moves one place on, or ends behind the last place. */
  lemma AdvanceUnpins(s: State)
    requires Inv(s) && Enabled(s, Advance)
    ensures var f := Top(s);
            var t := Apply(s, Advance);
            StaysPut(s, t, f) || MovesOn(s, t, f) || EndsEmpty(s, t, f)
  {
    hide Inv, Leave, MovesOn;
    ApplyKeeps(s, Advance);
    StepKeeps(s, Advance);
    StackIsSound(s, |s.stack| - 1);
    var f := Top(s);
    if f.phase != Broad && f.operation.Some? {
      var op := f.operation.value;
      var g := f.(next := Successor(s.registry, op));
      if f.phase == Visit {
        LeaveMovesOn(s, f);
      } else if !(!s.ops[op].completed && s.ops[op].context == f.context) {
        LeaveMovesOn(s, g);
        NextIsNoMatter(s, Leave(s, g), f, g);
      }
    }
  }

  lemma NextIsNoMatter(s: State, t: State, f: Frame, g: Frame)
    requires s.stack != [] && f.Cancelling? && g.Cancelling? && g == f.(next := g.next) && MovesOn(s, t, g)
    ensures MovesOn(s, t, f)
  {
  }

  /** One step, seen from the pass at height `d`. */
  lemma StepUnpins(s: State, a: Action, d: nat)
    requires Inv(s) && d < |s.stack| && s.stack[d].Cancelling? && s.stack[d].visited <= |s.stack[d].pass|
    ensures var f := s.stack[d];
            var u := UnpinnedBy(s, a, d);
            var t := Apply(s, a);
            if |t.stack| > d
            then && t.stack[d].Cancelling? && t.stack[d].context == f.context && t.stack[d].pass == f.pass
                 && t.stack[d].visited == f.visited + |u|
                 && t.stack[d].visited <= |f.pass| && u == f.pass[f.visited..f.visited + |u|]
            else |t.stack| == d && u == f.pass[f.visited..]
  {
    hide Inv, Apply, Drops, Enabled;
    if |s.stack| > d + 1 || !a.Advance? {
      LowerFramesStay(s, a, d);
    } else {
      AdvanceIsEnabled(s);
      AdvanceUnpins(s);
      var f, t := s.stack[d], Apply(s, a);
      if MovesOn(s, t, f) {
        assert Drops(s, t, f.pass[f.visited]) && UnpinnedBy(s, a, d) == [f.pass[f.visited]];
      } else {
        assert UnpinnedBy(s, a, d) == [];
      }
    }
  }

  lemma AdvanceIsEnabled(s: State)
    requires Inv(s) && s.stack != [] && Top(s).Cancelling?
    ensures Enabled(s, Advance)
  {
    hide Inv;
    StackIsSound(s, |s.stack| - 1);
  }

  /** From any point on, a pass unpins what it still pins, in order, and ends when nothing is left. */
  lemma {:induction false} PassUnpinsTheRest(s: State, actions: seq<Action>, d: nat)
    requires Inv(s) && d < |s.stack| && s.stack[d].Cancelling? && s.stack[d].visited <= |s.stack[d].pass|
    requires Outlives(s, actions, d)
    ensures var f := s.stack[d];
            var u := Unpinned(s, actions, d);
            var e := After(s, actions);
            if |e.stack| > d
            then && e.stack[d].Cancelling? && e.stack[d].context == f.context && e.stack[d].pass == f.pass
                 && e.stack[d].visited == f.visited + |u|
                 && u <= f.pass[f.visited..]
            else u == f.pass[f.visited..]
    decreases |actions|
  {
    hide Inv, Apply, UnpinnedBy;
    if actions != [] {
      var a, rest, f := actions[0], actions[1..], s.stack[d];
      ApplyKeeps(s, a);
      StepUnpins(s, a, d);
      var t := Apply(s, a);
      if |t.stack| > d {
        PassUnpinsTheRest(t, rest, d);
        var n := t.stack[d].visited;
        assert f.pass[f.visited..] == f.pass[f.visited..n] + f.pass[n..];
      } else {
        assert rest == [];
      }
    }
  }

  /** A cancellation unpins, in order, exactly the operations that were registered when it began: at any
      moment those dealt with are a prefix of that list, and when its frame is gone they are all of
      it, under any submissions, completions and cancellations nested inside. */
  lemma CancelUnpinsItsRegistry(before: seq<Action>, context: nat, during: seq<Action>)
    requires Outlives(Apply(Run(before), Cancel(context)), during, |Run(before).stack|)
    ensures var s := Run(before);
            var t := Apply(s, Cancel(context));
            var u := Unpinned(t, during, |s.stack|);
            var e := After(t, during);
            && u <= s.registry
            && (|e.stack| > |s.stack| ==>
                  var f := e.stack[|s.stack|];
                  f.Cancelling? && f.context == context && f.pass == s.registry && f.visited == |u|)
            && (|e.stack| <= |s.stack| ==> u == s.registry)
  {
    hide Inv, Run;
    RunKeeps(before);
    var s := Run(before);
    ApplyKeeps(s, Cancel(context));
    StepKeeps(s, Cancel(context));
    var t := Apply(s, Cancel(context));
    PassUnpinsTheRest(t, during, |s.stack|);
    assert s.registry[0..] == s.registry;
  }
}
