/** What the operations and the registry of AsyncOperations are, read off the actions of a run. */
module AsyncHistory {
  import opened Common
  import opened AsyncOperations
  import opened AsyncProofs
  import opened CancellationPass

  // ----- read off the actions -----

  /** Whether the last action was possible when it came. */
  predicate Happened(actions: seq<Action>)
    requires actions != []
  {
    Enabled(Run(actions[..|actions| - 1]), actions[|actions| - 1])
  }

  /** The contexts of all submissions, in order; operation `k` was made by submission `k`. */
  function Contexts(actions: seq<Action>): seq<nat> {
    if actions == [] then []
    else
      var a := actions[|actions| - 1];
      Contexts(actions[..|actions| - 1]) + if a.Submit? then [a.context] else []
  }

  /** The operations whose submission has not returned, the innermost last. */
  function Pending(actions: seq<Action>): seq<Id> {
    if actions == [] then []
    else
      var init, a := actions[..|actions| - 1], actions[|actions| - 1];
      var before := Pending(init);
      if a.Submit? then before + [|Contexts(init)|]
      else if a.SubmitReturns? && Happened(actions) && before != [] then before[..|before| - 1]
      else before
  }

  /** The operations the native side has completed. */
  function Completed(actions: seq<Action>): set<Id> {
    if actions == [] then {}
    else
      var a := actions[|actions| - 1];
      Completed(actions[..|actions| - 1]) + if a.Complete? && Happened(actions) then {a.op} else {}
  }

  /** The operations that were accepted before they completed, in the order in which their submissions
      returned. */
  function Accepted(actions: seq<Action>): seq<Id> {
    if actions == [] then []
    else
      var init, a := actions[..|actions| - 1], actions[|actions| - 1];
      var before := Pending(init);
      Accepted(init) +
      if a == SubmitReturns(true) && Happened(actions) && before != [] && before[|before| - 1] !in Completed(init)
      then [before[|before| - 1]] else []
  }

  /** Those that have not been freed. */
  function Unfreed(xs: seq<Id>, freed: seq<Id>): seq<Id> {
    if xs == [] then []
    else Unfreed(xs[..|xs| - 1], freed) + if xs[|xs| - 1] in freed then [] else [xs[|xs| - 1]]
  }

  // ----- the same, read off a state -----

  function Submissions(stack: seq<Frame>): seq<Id> {
    if stack == [] then []
    else Submissions(stack[..|stack| - 1]) + if stack[|stack| - 1].Submitting? then [stack[|stack| - 1].op] else []
  }

  ghost predicate Tells(s: State, contexts: seq<nat>, pending: seq<Id>, completed: set<Id>, accepted: seq<Id>) {
    && s.unused == |contexts|
    && Submissions(s.stack) == pending
    && s.registry == Unfreed(accepted, s.freed)
    && KnowsOps(s.ops, contexts, completed)
  }

  ghost predicate KnowsOps(ops: map<Id, Operation>, contexts: seq<nat>, completed: set<Id>) {
    forall id :: id in ops ==>
      id < |contexts| && ops[id].context == contexts[id] && (ops[id].completed <==> id in completed)
  }

  lemma SubmissionsSnoc(stack: seq<Frame>, f: Frame)
    ensures Submissions(stack + [f]) == Submissions(stack) + if f.Submitting? then [f.op] else []
  {
    assert (stack + [f])[..|stack|] == stack;
  }

  lemma {:induction false} UnfreedMembers(xs: seq<Id>, freed: seq<Id>, x: Id)
    ensures x in Unfreed(xs, freed) <==> x in xs && x !in freed
  {
    if xs != [] {
      var init := xs[..|xs| - 1];
      UnfreedMembers(init, freed, x);
      assert x in xs <==> x in init || x == xs[|xs| - 1];
    }
  }

  lemma {:induction false} WithoutSnoc(xs: seq<Id>, y: Id, x: Id)
    requires x !in xs || y != x
    ensures Without(xs + [y], x) == if y == x then xs else Without(xs, x) + [y]
    decreases |xs|
  {
    if xs == [] {
      assert xs + [y] == [y];
    } else {
      assert (xs + [y])[1..] == xs[1..] + [y];
      if xs[0] != x {
        WithoutSnoc(xs[1..], y, x);
      }
    }
  }

  /** Freeing one more takes it out. */
  lemma {:induction false} UnfreedDrops(xs: seq<Id>, freed: seq<Id>, x: Id)
    requires Distinct(Unfreed(xs, freed))
    ensures Unfreed(xs, freed + [x]) == Without(Unfreed(xs, freed), x)
  {
    if xs != [] {
      var init, y := xs[..|xs| - 1], xs[|xs| - 1];
      var rest := Unfreed(init, freed);
      assert Distinct(rest) by {
        assert forall i :: 0 <= i < |rest| ==> rest[i] == Unfreed(xs, freed)[i];
      }
      UnfreedDrops(init, freed, x);
      assert y in freed + [x] <==> y in freed || y == x;
      assert rest + [] == rest && Unfreed(init, freed + [x]) + [] == Unfreed(init, freed + [x]);
      if y !in freed {
        if y == x {
          var all := Unfreed(xs, freed);
          assert all == rest + [y];
          assert forall i :: 0 <= i < |rest| ==> all[i] != all[|rest|];
          assert forall i :: 0 <= i < |rest| ==> rest[i] == all[i];
          NotIn(rest, x);
        }
        WithoutSnoc(rest, y, x);
      }
    }
  }

  lemma {:induction false} NotIn(xs: seq<Id>, x: Id)
    requires x !in xs
    ensures Without(xs, x) == xs
    decreases |xs|
  {
    if xs != [] {
      NotIn(xs[1..], x);
    }
  }

  lemma UnfreedSnoc(xs: seq<Id>, freed: seq<Id>, x: Id)
    requires x !in freed
    ensures Unfreed(xs + [x], freed) == Unfreed(xs, freed) + [x]
  {
    assert (xs + [x])[..|xs|] == xs;
  }

  // ----- every step tells the same story -----

  lemma UnrefTells(s: State, id: Id, contexts: seq<nat>, pending: seq<Id>, completed: set<Id>, accepted: seq<Id>)
    requires Tells(s, contexts, pending, completed, accepted) && Distinct(s.registry)
    requires id in s.ops && s.ops[id].references > 0
    ensures Tells(Unref(s, id), contexts, pending, completed, accepted)
    ensures Distinct(Unref(s, id).registry)
  {
    UnfreedDrops(accepted, s.freed, id);
    WithoutFacts(s.registry, id);
  }

  lemma PopTells(s: State, contexts: seq<nat>, pending: seq<Id>, completed: set<Id>, accepted: seq<Id>)
    requires Tells(s, contexts, pending, completed, accepted) && s.stack != []
    ensures Tells(Pop(s), contexts, if Top(s).Submitting? then pending[..|pending| - 1] else pending, completed,
                  accepted)
    ensures Top(s).Submitting? ==> pending != [] && pending[|pending| - 1] == Top(s).op
  {
    SubmissionsSnoc(Pop(s).stack, Top(s));
    assert s.stack == Pop(s).stack + [Top(s)];
  }

  lemma PushTells(s: State, f: Frame, contexts: seq<nat>, pending: seq<Id>, completed: set<Id>, accepted: seq<Id>)
    requires Tells(s, contexts, pending, completed, accepted) && !f.Submitting?
    ensures Tells(Push(s, f), contexts, pending, completed, accepted)
  {
    SubmissionsSnoc(s.stack, f);
  }

  lemma SubmitTells(s: State, context: nat, contexts: seq<nat>, pending: seq<Id>, completed: set<Id>, accepted: seq<Id>)
    requires Tells(s, contexts, pending, completed, accepted) && forall id :: id in completed ==> id < s.unused
    ensures Tells(BeginSubmit(s, context), contexts + [context], pending + [|contexts|], completed, accepted)
  {
    SubmissionsSnoc(s.stack, Submitting(s.unused));
  }

  /** Facts of every reachable state. */
  lemma InvFacts(s: State)
    requires Inv(s)
    ensures Distinct(s.registry) && forall id :: id in s.ops ==> id !in s.freed && s.ops[id].references > 0
  {
    hide StackSound, Balanced;
  }

  lemma FinishTells(s: State, ok: bool, contexts: seq<nat>, pending: seq<Id>, completed: set<Id>, accepted: seq<Id>)
    requires Tells(s, contexts, pending, completed, accepted) && Inv(s)
    requires Enabled(s, SubmitReturns(ok)) && Safe(s, SubmitReturns(ok))
    ensures pending != []
    ensures var op := pending[|pending| - 1];
            Tells(FinishSubmit(s, ok), contexts, pending[..|pending| - 1], completed,
                  accepted + if ok && op !in completed then [op] else [])
  {
    hide Tells, Inv, Unref;
    InvFacts(s);
    var op, t := Top(s).op, Pop(s);
    PopTells(s, contexts, pending, completed, accepted);
    var rest := pending[..|pending| - 1];
    assert t.ops[op].completed <==> op in completed by { OpTells(t, op, contexts, rest, completed, accepted); }
    assert accepted + [] == accepted;
    if t.ops[op].completed {
      UnrefTells(t, op, contexts, rest, completed, accepted);
    } else if ok {
      assert op !in s.registry by { StackIsSound(s, |s.stack| - 1); }
      AppendTells(t, op, contexts, rest, completed, accepted);
      UnrefTells(t.(registry := t.registry + [op]), op, contexts, rest, completed, accepted + [op]);
    } else {
      var u := t.(native := t.native - {op});
      NativeTells(t, u, contexts, rest, completed, accepted);
      UnrefTells(u, op, contexts, rest, completed, accepted);
      RefsLeft(u, op);
      UnrefTells(Unref(u, op), op, contexts, rest, completed, accepted);
    }
  }

  lemma RefsLeft(s: State, id: Id)
    requires id in s.ops && s.ops[id].references > 1
    ensures id in Unref(s, id).ops && Unref(s, id).ops[id].references > 0
  {
  }

  lemma OpTells(s: State, op: Id, contexts: seq<nat>, pending: seq<Id>, completed: set<Id>, accepted: seq<Id>)
    requires Tells(s, contexts, pending, completed, accepted) && op in s.ops
    ensures s.ops[op].completed <==> op in completed
  {
  }

  lemma NativeTells(s: State, t: State, contexts: seq<nat>, pending: seq<Id>, completed: set<Id>, accepted: seq<Id>)
    requires Tells(s, contexts, pending, completed, accepted) && t == s.(native := t.native)
    ensures Tells(t, contexts, pending, completed, accepted)
  {
  }

  lemma AppendTells(s: State, op: Id, contexts: seq<nat>, pending: seq<Id>, completed: set<Id>, accepted: seq<Id>)
    requires Tells(s, contexts, pending, completed, accepted) && op !in s.freed && op !in s.registry
    requires Distinct(s.registry)
    ensures Tells(s.(registry := s.registry + [op]), contexts, pending, completed, accepted + [op])
    ensures Distinct(s.registry + [op])
  {
    UnfreedSnoc(accepted, s.freed, op);
  }

  lemma CompleteTells(s: State, op: Id, contexts: seq<nat>, pending: seq<Id>, completed: set<Id>, accepted: seq<Id>)
    requires Tells(s, contexts, pending, completed, accepted) && op in s.ops
    ensures Tells(BeginComplete(s, op), contexts, pending, completed + {op}, accepted)
  {
    SubmissionsSnoc(s.stack, Completing(op));
  }

  lemma CancelTells(s: State, context: nat, contexts: seq<nat>, pending: seq<Id>, completed: set<Id>, accepted: seq<Id>)
    requires Tells(s, contexts, pending, completed, accepted)
    ensures Tells(BeginCancel(s, context), contexts, pending, completed, accepted)
  {
    var f := Top(BeginCancel(s, context));
    SubmissionsSnoc(s.stack, f);
  }

  lemma LeaveTells(s: State, f: Frame, contexts: seq<nat>, pending: seq<Id>, completed: set<Id>, accepted: seq<Id>)
    requires Tells(s, contexts, pending, completed, accepted) && Distinct(s.registry)
    requires s.stack != [] && Top(s).Cancelling? && f.Cancelling? && f.operation.Some?
    requires f.operation.value in s.ops && s.ops[f.operation.value].references > 0
    ensures Tells(Leave(s, f), contexts, pending, completed, accepted)
  {
    hide Tells, Unref;
    PopTells(s, contexts, pending, completed, accepted);
    var p := Past(s, f);
    if f.operation != f.last {
      PushTells(Pop(s), f.(operation := f.next, phase := Loop, visited := f.visited + 1), contexts, pending, completed,
                accepted);
    }
    UnrefTells(p, f.operation.value, contexts, pending, completed, accepted);
  }

  lemma AdvanceTells(s: State, contexts: seq<nat>, pending: seq<Id>, completed: set<Id>, accepted: seq<Id>)
    requires Tells(s, contexts, pending, completed, accepted) && Inv(s) && Enabled(s, Advance) && Safe(s, Advance)
    ensures Tells(AdvanceCancel(s), contexts, pending, completed, accepted)
  {
    hide Tells, Inv, Leave;
    InvFacts(s);
    var f := Top(s);
    PopTells(s, contexts, pending, completed, accepted);
    PushTells(Pop(s), f.(phase := Loop), contexts, pending, completed, accepted);
    if f.phase != Broad && f.operation.Some? {
      var g := f.(next := Successor(s.registry, f.operation.value));
      PushTells(Pop(s), g.(phase := Visit), contexts, pending, completed, accepted);
      LeaveTells(s, f, contexts, pending, completed, accepted);
      LeaveTells(s, g, contexts, pending, completed, accepted);
    }
  }

  /** How the history goes on with an action that happens. */
  lemma HistoryGoesOn(actions: seq<Action>, init: seq<Action>, a: Action)
    requires actions != [] && init == actions[..|actions| - 1] && a == actions[|actions| - 1] && Enabled(Run(init), a)
    requires a.SubmitReturns? ==> Pending(init) != []
    ensures Contexts(actions) == Contexts(init) + if a.Submit? then [a.context] else []
    ensures Pending(actions) == if a.Submit? then Pending(init) + [|Contexts(init)|]
                                else if a.SubmitReturns? then Pending(init)[..|Pending(init)| - 1] else Pending(init)
    ensures Completed(actions) == Completed(init) + if a.Complete? then {a.op} else {}
    ensures Accepted(actions) ==
            Accepted(init) + if a == SubmitReturns(true) && Pending(init)[|Pending(init)| - 1] !in Completed(init)
                             then [Pending(init)[|Pending(init)| - 1]] else []
  {
    hide Enabled, Run;
  }

  /** An action that does not happen leaves no trace. */
  lemma HistoryStays(actions: seq<Action>, init: seq<Action>, a: Action)
    requires actions != [] && init == actions[..|actions| - 1] && a == actions[|actions| - 1] && !Enabled(Run(init), a)
    ensures Contexts(actions) == Contexts(init) && Pending(actions) == Pending(init)
    ensures Completed(actions) == Completed(init) && Accepted(actions) == Accepted(init)
  {
    SubmitIsEnabled(Run(init), a);
    hide Enabled, Run;
  }

  /** The state of a run tells its history. */
  lemma {:induction false} RunTells(actions: seq<Action>)
    ensures Tells(Run(actions), Contexts(actions), Pending(actions), Completed(actions), Accepted(actions))
    ensures forall id :: id in Completed(actions) ==> id < |Contexts(actions)|
    decreases |actions|, 1
  {
    if actions == [] {
      assert Submissions([]) == [] && Unfreed([], []) == [];
    } else {
      RunTellsOn(actions, actions[..|actions| - 1], actions[|actions| - 1]);
    }
  }

  lemma RunTellsOn(actions: seq<Action>, init: seq<Action>, a: Action)
    requires actions != [] && init == actions[..|actions| - 1] && a == actions[|actions| - 1]
    ensures Tells(Run(actions), Contexts(actions), Pending(actions), Completed(actions), Accepted(actions))
    ensures forall id :: id in Completed(actions) ==> id < |Contexts(actions)|
    decreases |actions|, 0
  {
    hide Tells, Inv, Step, Enabled, Safe, Contexts, Pending, Completed, Accepted;
    var s := Run(init);
    RunTells(init);
    RunKeeps(init);
    if Enabled(s, a) {
      StepKeeps(s, a);
      StepTells(s, a, Contexts(init), Pending(init), Completed(init), Accepted(init));
      HistoryGoesOn(actions, init, a);
    } else {
      HistoryStays(actions, init, a);
    }
  }

  lemma SubmitIsEnabled(s: State, a: Action)
    ensures a.Submit? ==> Enabled(s, a)
  {
  }

  lemma StepTells(s: State, a: Action, contexts: seq<nat>, pending: seq<Id>, completed: set<Id>, accepted: seq<Id>)
    requires Tells(s, contexts, pending, completed, accepted) && Inv(s) && Enabled(s, a) && Safe(s, a)
    requires forall id :: id in completed ==> id < |contexts|
    ensures a.SubmitReturns? ==> pending != []
    ensures Tells(Step(s, a), contexts + (if a.Submit? then [a.context] else []),
                  if a.Submit? then pending + [|contexts|]
                  else if a.SubmitReturns? then pending[..|pending| - 1] else pending,
                  completed + (if a.Complete? then {a.op} else {}),
                  accepted + if a == SubmitReturns(true) && pending[|pending| - 1] !in completed
                             then [pending[|pending| - 1]] else [])
    ensures a.Complete? ==> a.op < |contexts|
  {
    assert contexts + [] == contexts && completed + {} == completed && accepted + [] == accepted;
    match a {
      case Submit(context) => SubmitTells(s, context, contexts, pending, completed, accepted);
      case SubmitReturns(ok) => FinishTells(s, ok, contexts, pending, completed, accepted);
      case Complete(op) => CompleteTells(s, op, contexts, pending, completed, accepted);
      case CallbackReturns =>
        InvFacts(s);
        PopTells(s, contexts, pending, completed, accepted);
        UnrefTells(Pop(s), Top(s).op, contexts, pending, completed, accepted);
      case Cancel(context) => CancelTells(s, context, contexts, pending, completed, accepted);
      case Advance => AdvanceTells(s, contexts, pending, completed, accepted);
    }
  }

  // ----- the theorems -----

  /** In every reachable state the registry is exactly the operations that were accepted before they
      completed and have not been freed, in the order in which their submissions returned. */
  lemma RegistryIsAccepted(actions: seq<Action>)
    ensures Run(actions).registry == Unfreed(Accepted(actions), Run(actions).freed)
  {
    RunTells(actions);
  }

  /** Every live operation carries the context of the submission that made it, and is marked completed
      exactly when the native side has completed it. */
  lemma OperationsAreKnown(actions: seq<Action>, id: Id)
    requires id in Run(actions).ops
    ensures id < |Contexts(actions)| && Run(actions).ops[id].context == Contexts(actions)[id]
    ensures Run(actions).ops[id].completed <==> id in Completed(actions)
  {
    RunTells(actions);
  }

  /** A cancellation deals, in order, with exactly the operations that were accepted, not completed by then,
      and not freed when it began, under any submissions, completions and cancellations nested inside. */
  lemma CancelVisitsTheAccepted(before: seq<Action>, context: nat, during: seq<Action>)
    requires Outlives(Apply(Run(before), Cancel(context)), during, |Run(before).stack|)
    ensures var s := Run(before);
            var t := Apply(s, Cancel(context));
            var u := Unpinned(t, during, |s.stack|);
            var e := After(t, during);
            var accepted := Unfreed(Accepted(before), s.freed);
            && u <= accepted
            && (|e.stack| > |s.stack| ==> e.stack[|s.stack|].Cancelling? && e.stack[|s.stack|].context == context)
            && (|e.stack| <= |s.stack| ==> u == accepted)
  {
    hide Run, Unpinned, After, Outlives, Accepted;
    RegistryIsAccepted(before);
    CancelUnpinsItsRegistry(before, context, during);
  }

  /** At its turn an operation is cancelled natively if and only if the native side has not completed it and
      its submission gave the context being cancelled. */
  lemma TurnCancelsByContext(actions: seq<Action>)
    requires Enabled(Run(actions), Advance) && Top(Run(actions)).phase == Loop && Top(Run(actions)).operation.Some?
    ensures var s := Run(actions);
            var f := Top(s);
            var op := f.operation.value;
            var t := Apply(s, Advance);
            && op < |Contexts(actions)|
            && (op !in Completed(actions) && Contexts(actions)[op] == f.context <==>
                  |t.stack| == |s.stack| && Top(t).Cancelling? && Top(t).phase == Visit && Top(t).visited == f.visited)
  {
    hide Run, Completed, Contexts, Apply;
    PassCancelsMatching(actions);
    OperationsAreKnown(actions, Top(Run(actions)).operation.value);
  }
}
