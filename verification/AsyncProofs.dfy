/** Reference counts, lifetimes and cancellation passes over every run of AsyncOperations. */
module AsyncProofs {
  import opened Common
  import opened AsyncOperations

  /** A run is any list of actions; one that is not possible in its state is skipped. */
  function Apply(s: State, a: Action): State {
    if Enabled(s, a) && Safe(s, a) then Step(s, a) else s
  }

  function Run(actions: seq<Action>): State {
    if actions == [] then INITIAL else Apply(Run(actions[..|actions| - 1]), actions[|actions| - 1])
  }

  // ----- what the counts count -----

  /** References frame `f` holds on `id`: a submission or completion in progress, or a pin not yet
      taken off. */
  function Held(f: Frame, id: Id): nat {
    match f
    case Submitting(op) => if op == id then 1 else 0
    case Completing(op) => if op == id then 1 else 0
    case Cancelling(_, _, _, _, _, pass, visited) => if visited <= |pass| && id in pass[visited..] then 1 else 0
  }

  function HeldBy(stack: seq<Frame>, id: Id): nat {
    if stack == [] then 0 else HeldBy(stack[..|stack| - 1], id) + Held(stack[|stack| - 1], id)
  }

  /** The native side's own reference, plus those of the running frames. */
  function Owed(s: State, id: Id): nat { (if id in s.native then 1 else 0) + HeldBy(s.stack, id) }

  ghost predicate Adjacent(xs: seq<Id>, a: Id, b: Id) {
    exists k :: 0 <= k < |xs| - 1 && xs[k] == a && xs[k + 1] == b
  }

  /** The pins not yet taken off are live and stand next to each other in the registry. */
  ghost predicate PassSound(ops: map<Id, Operation>, registry: seq<Id>, rest: seq<Id>) {
    && (forall i :: 0 <= i < |rest| ==> rest[i] in ops && rest[i] in registry)
    && (forall i :: 0 < i < |rest| ==> Adjacent(registry, rest[i - 1], rest[i]))
  }

  ghost predicate FrameSound(ops: map<Id, Operation>, registry: seq<Id>, f: Frame) {
    match f
    case Submitting(op) => op in ops && op !in registry
    case Completing(op) => op in ops && ops[op].completed
    case Cancelling(_, operation, last, next, phase, pass, visited) =>
      && Distinct(pass)
      && (visited < |pass| || (pass == [] && visited == 0))
      && operation == First(pass[visited..])
      && last == Last(pass)
      && (phase == Visit ==> operation.Some? && (visited + 1 < |pass| ==> next == Some(pass[visited + 1])))
      && PassSound(ops, registry, pass[visited..])
  }

  ghost predicate StackSound(s: State) {
    && (forall k :: 0 <= k < |s.stack| ==> FrameSound(s.ops, s.registry, s.stack[k]))
    && (forall j, k :: 0 <= j < k < |s.stack| && s.stack[j].Submitting? && s.stack[k].Submitting? ==>
          s.stack[j].op != s.stack[k].op)
  }

  /** Every operation ever made is live or was freed, never both, and never freed twice. */
  ghost predicate Accounted(s: State) {
    && Distinct(s.freed)
    && forall id: Id :: (id < s.unused <==> id in s.ops || id in s.freed) && !(id in s.ops && id in s.freed)
  }

  /** All but the counts. */
  ghost predicate Shaped(s: State) {
    && StackSound(s)
    && Accounted(s)
    && Distinct(s.registry)
    && (forall id :: id in s.registry ==> id in s.ops)
    && (forall id :: id in s.native ==> id in s.ops)
    && (forall id :: id in s.ops ==> s.ops[id].references > 0 && (s.ops[id].completed <==> id !in s.native))
  }

  /** The counts, with `extra` references of `x` about to be dropped. */
  ghost predicate Balanced(s: State, x: Id, extra: nat) {
    forall id :: id in s.ops ==> s.ops[id].references == Owed(s, id) + if id == x then extra else 0
  }

  ghost predicate Inv(s: State) { Shaped(s) && Balanced(s, 0, 0) }

  // ----- lists -----

  lemma {:induction false} WithoutKeepsAdjacent(xs: seq<Id>, x: Id, a: Id, b: Id)
    requires Adjacent(xs, a, b) && a != x && b != x
    ensures Adjacent(Without(xs, x), a, b)
    decreases |xs|
  {
    var k :| 0 <= k < |xs| - 1 && xs[k] == a && xs[k + 1] == b;
    var rest := xs[1..];
    if xs[0] == x {
      assert rest[k - 1] == a && rest[k - 1 + 1] == b;
    } else {
      var tail := Without(rest, x);
      if k > 0 {
        assert rest[k - 1] == a && rest[k - 1 + 1] == b;
        WithoutKeepsAdjacent(rest, x, a, b);
        var j :| 0 <= j < |tail| - 1 && tail[j] == a && tail[j + 1] == b;
        assert Without(xs, x)[j + 1] == a && Without(xs, x)[j + 1 + 1] == b;
      } else {
        assert rest[0] == b && tail[0] == b;
        assert Without(xs, x)[0] == a && Without(xs, x)[0 + 1] == b;
      }
    }
  }

  lemma AppendKeepsAdjacent(xs: seq<Id>, x: Id, a: Id, b: Id)
    requires Adjacent(xs, a, b)
    ensures Adjacent(xs + [x], a, b)
  {
    var k :| 0 <= k < |xs| - 1 && xs[k] == a && xs[k + 1] == b;
    assert (xs + [x])[k] == a && (xs + [x])[k + 1] == b;
  }

  lemma {:induction false} SuccessorIsAdjacent(xs: seq<Id>, a: Id, b: Id)
    requires Distinct(xs) && Adjacent(xs, a, b)
    ensures Successor(xs, a) == Some(b)
    decreases |xs|
  {
    var k :| 0 <= k < |xs| - 1 && xs[k] == a && xs[k + 1] == b;
    if k > 0 {
      var rest := xs[1..];
      assert rest[k - 1] == a && rest[k - 1 + 1] == b;
      SuccessorIsAdjacent(rest, a, b);
    }
  }

  lemma HeldBySnoc(stack: seq<Frame>, f: Frame, id: Id)
    ensures HeldBy(stack + [f], id) == HeldBy(stack, id) + Held(f, id)
  {
    assert (stack + [f])[..|stack|] == stack;
  }

  lemma {:induction false} HeldByNone(stack: seq<Frame>, id: Id, k: nat)
    requires k < |stack| && HeldBy(stack, id) == 0
    ensures Held(stack[k], id) == 0
    decreases |stack|
  {
    if k < |stack| - 1 {
      HeldByNone(stack[..|stack| - 1], id, k);
    }
  }

  // ----- dropping a reference -----

  lemma FrameSurvives(ops: map<Id, Operation>, registry: seq<Id>, f: Frame, x: Id)
    requires FrameSound(ops, registry, f) && Distinct(registry) && Held(f, x) == 0
    ensures FrameSound(ops - {x}, Without(registry, x), f)
  {
    WithoutFacts(registry, x);
    if f.Cancelling? {
      var rest := f.pass[f.visited..];
      forall i | 0 < i < |rest|
        ensures Adjacent(Without(registry, x), rest[i - 1], rest[i])
      {
        WithoutKeepsAdjacent(registry, x, rest[i - 1], rest[i]);
      }
    }
  }

  lemma FreeKeeps(s: State, x: Id)
    requires Shaped(s) && x in s.ops && s.ops[x].references == 1 && Balanced(s, x, 1)
    ensures Inv(Unref(s, x))
  {
    var t := Unref(s, x);
    WithoutFacts(s.registry, x);
    forall k | 0 <= k < |t.stack|
      ensures FrameSound(t.ops, t.registry, t.stack[k])
    {
      HeldByNone(s.stack, x, k);
      FrameSurvives(s.ops, s.registry, s.stack[k], x);
    }
    assert Accounted(t);
  }

  lemma DropKeeps(s: State, x: Id, extra: nat)
    requires Shaped(s) && x in s.ops && s.ops[x].references > 1 && extra > 0 && Balanced(s, x, extra)
    ensures Shaped(Unref(s, x)) && Balanced(Unref(s, x), x, extra - 1)
  {
    var t := Unref(s, x);
    forall k | 0 <= k < |t.stack|
      ensures FrameSound(t.ops, t.registry, t.stack[k])
    {
      assert FrameSound(s.ops, s.registry, s.stack[k]);
    }
  }

  lemma UnrefKeeps(s: State, x: Id)
    requires Shaped(s) && x in s.ops && Balanced(s, x, 1)
    ensures Inv(Unref(s, x))
  {
    if s.ops[x].references == 1 {
      FreeKeeps(s, x);
    } else {
      DropKeeps(s, x, 1);
    }
  }

  // ----- each action -----

  lemma SubmitKeeps(s: State, context: nat)
    requires Inv(s)
    ensures Inv(BeginSubmit(s, context))
  {
    var t := BeginSubmit(s, context);
    forall k | 0 <= k < |t.stack|
      ensures FrameSound(t.ops, t.registry, t.stack[k])
    {
      assert k < |s.stack| ==> FrameSound(s.ops, s.registry, s.stack[k]);
    }
    forall id | id in t.ops
      ensures t.ops[id].references == Owed(t, id)
    {
      HeldBySnoc(s.stack, Submitting(s.unused), id);
      if id == s.unused {
        HeldByUnused(s, s.stack);
      }
    }
  }

  lemma {:induction false} HeldByUnused(s: State, stack: seq<Frame>)
    requires Shaped(s) && stack <= s.stack
    ensures HeldBy(stack, s.unused) == 0
    decreases |stack|
  {
    if stack != [] {
      HeldByUnused(s, stack[..|stack| - 1]);
      assert FrameSound(s.ops, s.registry, s.stack[|stack| - 1]);
    }
  }

  /** Taking the top frame away leaves its references over. */
  lemma PopBalance(s: State, x: Id)
    requires Inv(s) && s.stack != []
    requires Top(s).Submitting? || Top(s).Completing?
    requires x == Top(s).op
    ensures Shaped(Pop(s)) && x in s.ops && Balanced(Pop(s), x, 1)
  {
    assert FrameSound(s.ops, s.registry, Top(s));
    var t := Pop(s);
    forall id | id in t.ops
      ensures t.ops[id].references == Owed(t, id) + if id == x then 1 else 0
    {
      assert s.stack == t.stack + [Top(s)];
      HeldBySnoc(t.stack, Top(s), id);
    }
  }

  lemma AppendKeeps(s: State, x: Id)
    requires Shaped(s) && Balanced(s, x, 1) && x in s.ops && x !in s.registry
    requires forall k :: 0 <= k < |s.stack| && s.stack[k].Submitting? ==> s.stack[k].op != x
    ensures Shaped(s.(registry := s.registry + [x])) && Balanced(s.(registry := s.registry + [x]), x, 1)
  {
    var t := s.(registry := s.registry + [x]);
    forall k | 0 <= k < |t.stack|
      ensures FrameSound(t.ops, t.registry, t.stack[k])
    {
      var f := s.stack[k];
      assert FrameSound(s.ops, s.registry, f);
      if f.Cancelling? {
        var rest := f.pass[f.visited..];
        forall i | 0 < i < |rest|
          ensures Adjacent(t.registry, rest[i - 1], rest[i])
        {
          AppendKeepsAdjacent(s.registry, x, rest[i - 1], rest[i]);
        }
      }
    }
  }

  /** Nothing holds an operation that is neither registered, completed nor being submitted. */
  lemma {:induction false} HeldByNobody(s: State, stack: seq<Frame>, x: Id)
    requires Shaped(s) && stack <= s.stack && x !in s.registry && x in s.ops && !s.ops[x].completed
    requires forall k :: 0 <= k < |stack| && stack[k].Submitting? ==> stack[k].op != x
    ensures HeldBy(stack, x) == 0
    decreases |stack|
  {
    if stack != [] {
      HeldByNobody(s, stack[..|stack| - 1], x);
      assert FrameSound(s.ops, s.registry, s.stack[|stack| - 1]);
    }
  }

  /** A refused operation loses both its references and goes. */
  lemma RefuseKeeps(s: State, x: Id)
    requires Shaped(s) && Balanced(s, x, 1) && x in s.native && x !in s.registry
    requires forall k :: 0 <= k < |s.stack| && s.stack[k].Submitting? ==> s.stack[k].op != x
    ensures var t := s.(native := s.native - {x}); t.ops[x].references > 1 && Inv(Unref(Unref(t, x), x))
  {
    HeldByNobody(s, s.stack, x);
    assert s.ops[x].references == 2;
    var t := s.(native := s.native - {x});
    var u := t.(ops := t.ops[x := Operation(t.ops[x].context, 1, true)]);
    forall k | 0 <= k < |u.stack|
      ensures FrameSound(u.ops, u.registry, u.stack[k])
    {
      assert FrameSound(s.ops, s.registry, s.stack[k]);
    }
    assert Accounted(u);
    forall id | id in u.ops
      ensures u.ops[id].references == Owed(u, id) + if id == x then 1 else 0
    {
      assert id != x ==> s.ops[id].references == Owed(s, id);
    }
    FreeKeeps(u, x);
    assert Unref(t, x).ops - {x} == u.ops - {x};
    assert Unref(Unref(t, x), x) == Unref(u, x);
  }

  lemma SubmitReturnKeeps(s: State, accepted: bool)
    requires Inv(s) && Enabled(s, SubmitReturns(accepted))
    ensures Safe(s, SubmitReturns(accepted)) && Inv(FinishSubmit(s, accepted))
  {
    var x := Top(s).op;
    PopBalance(s, x);
    var t := Pop(s);
    assert FrameSound(s.ops, s.registry, Top(s));
    if t.ops[x].completed {
      UnrefKeeps(t, x);
    } else if accepted {
      AppendKeeps(t, x);
      UnrefKeeps(t.(registry := t.registry + [x]), x);
    } else {
      RefuseKeeps(t, x);
    }
  }

  lemma CompleteKeeps(s: State, x: Id)
    requires Inv(s) && x in s.native
    ensures Safe(s, Complete(x)) && Inv(BeginComplete(s, x))
  {
    var t := BeginComplete(s, x);
    forall k | 0 <= k < |t.stack|
      ensures FrameSound(t.ops, t.registry, t.stack[k])
    {
      assert k < |s.stack| ==> FrameSound(s.ops, s.registry, s.stack[k]);
    }
    forall id | id in t.ops
      ensures t.ops[id].references == Owed(t, id)
    {
      HeldBySnoc(s.stack, Completing(x), id);
      assert s.ops[id].references == Owed(s, id);
    }
    assert Accounted(t);
  }

  lemma CallbackReturnKeeps(s: State)
    requires Inv(s) && Enabled(s, CallbackReturns)
    ensures Safe(s, CallbackReturns) && Inv(Unref(Pop(s), Top(s).op))
  {
    PopBalance(s, Top(s).op);
    UnrefKeeps(Pop(s), Top(s).op);
  }

  /** Pinning changes counts only. */
  lemma PinShapes(s: State, context: nat)
    requires Inv(s)
    ensures Shaped(BeginCancel(s, context))
  {
    var t := BeginCancel(s, context);
    var f := Top(t);
    assert f.pass[f.visited..] == s.registry;
    forall i | 0 < i < |s.registry|
      ensures Adjacent(s.registry, s.registry[i - 1], s.registry[i])
    {
      assert s.registry[i - 1 + 1] == s.registry[i];
    }
    assert FrameSound(t.ops, t.registry, f);
    forall k | 0 <= k < |s.stack|
      ensures FrameSound(t.ops, t.registry, s.stack[k])
    {
      PinnedFrame(s.ops, t.ops, s.registry, s.stack[k]);
    }
    hide FrameSound;
    assert Accounted(t);
  }

  lemma PinnedFrame(ops: map<Id, Operation>, pinned: map<Id, Operation>, registry: seq<Id>, f: Frame)
    requires FrameSound(ops, registry, f) && ops.Keys == pinned.Keys
    requires forall id :: id in ops ==> ops[id].completed == pinned[id].completed
    ensures FrameSound(pinned, registry, f)
  {
  }

  lemma CancelKeeps(s: State, context: nat)
    requires Inv(s)
    ensures Safe(s, Cancel(context)) && Inv(BeginCancel(s, context))
  {
    hide FrameSound;
    PinShapes(s, context);
    var t := BeginCancel(s, context);
    forall id | id in t.ops
      ensures t.ops[id].references == Owed(t, id)
    {
      HeldBySnoc(s.stack, Top(t), id);
      assert s.ops[id].references == Owed(s, id);
      assert s.registry[0..] == s.registry;
    }
  }

  /** Replacing the top frame by one that holds the same is invisible to the counts. */
  lemma ReplaceTop(s: State, f: Frame)
    requires Inv(s) && s.stack != [] && FrameSound(s.ops, s.registry, f)
    requires f.Cancelling? && Top(s).Cancelling? && f.pass == Top(s).pass && f.visited == Top(s).visited
    ensures Inv(Push(Pop(s), f))
  {
    var t := Push(Pop(s), f);
    var base := s.stack[..|s.stack| - 1];
    forall k | 0 <= k < |t.stack|
      ensures FrameSound(t.ops, t.registry, t.stack[k])
    {
      assert k < |base| ==> FrameSound(s.ops, s.registry, s.stack[k]);
    }
    forall id | id in t.ops
      ensures t.ops[id].references == Owed(t, id)
    {
      assert s.stack == base + [Top(s)];
      HeldBySnoc(base, Top(s), id);
      HeldBySnoc(base, f, id);
    }
    assert Accounted(t);
  }

  lemma PastShapes(s: State, f: Frame)
    requires Shaped(s) && s.stack != [] && Top(s).Cancelling? && f.Cancelling?
    requires FrameSound(s.ops, s.registry, f.(phase := Visit)) && f.operation.Some?
    ensures Shaped(Past(s, f))
  {
    if f.operation != f.last {
      NextSound(s, f);
    }
    hide FrameSound, Accounted;
    LeaveShapes(s, Past(s, f));
  }

  lemma PastHolds(f: Frame, id: Id)
    requires f.Cancelling? && f.visited < |f.pass| && Distinct(f.pass)
    requires f.operation == Some(f.pass[f.visited]) && f.last == Last(f.pass)
    ensures Held(f, id) ==
            (if f.operation == f.last then 0
             else Held(f.(operation := f.next, phase := Loop, visited := f.visited + 1), id))
            + if id == f.operation.value then 1 else 0
  {
    var rest := f.pass[f.visited..];
    assert rest == [f.operation.value] + f.pass[f.visited + 1..];
    if f.operation == f.last {
      assert f.visited == |f.pass| - 1;
    }
  }

  lemma PastBalances(s: State, f: Frame)
    requires Balanced(s, 0, 0) && s.stack != [] && Top(s).Cancelling? && f.Cancelling?
    requires f.visited < |f.pass| && Distinct(f.pass)
    requires f.operation == Some(f.pass[f.visited]) && f.last == Last(f.pass)
    requires f.pass == Top(s).pass && f.visited == Top(s).visited
    ensures Balanced(Past(s, f), f.operation.value, 1)
  {
    var t := Past(s, f);
    var base := s.stack[..|s.stack| - 1];
    assert s.stack == base + [Top(s)];
    var f' := f.(operation := f.next, phase := Loop, visited := f.visited + 1);
    forall id | id in t.ops
      ensures t.ops[id].references == Owed(t, id) + if id == f.operation.value then 1 else 0
    {
      HeldBySnoc(base, Top(s), id);
      HeldBySnoc(base, f', id);
      PastHolds(f, id);
      assert Held(f, id) == Held(Top(s), id);
      assert s.ops[id].references == Owed(s, id);
    }
  }

  /** The cancellation on top moves past its current operation. */
  lemma LeaveKeeps(s: State, f: Frame)
    requires Inv(s) && s.stack != [] && Top(s).Cancelling? && f.Cancelling?
    requires FrameSound(s.ops, s.registry, f.(phase := Visit)) && f.operation.Some?
    requires f.pass == Top(s).pass && f.visited == Top(s).visited
    ensures f.operation.value in s.ops && s.ops[f.operation.value].references > 0
    ensures Inv(Leave(s, f))
  {
    assert f.pass[f.visited..][0] == f.operation.value;
    PastShapes(s, f);
    PastBalances(s, f);
    UnrefKeeps(Past(s, f), f.operation.value);
  }

  lemma NextSound(s: State, f: Frame)
    requires f.Cancelling? && FrameSound(s.ops, s.registry, f.(phase := Visit)) && f.operation.Some?
    requires f.operation != f.last
    ensures FrameSound(s.ops, s.registry, f.(operation := f.next, phase := Loop, visited := f.visited + 1))
  {
    var rest := f.pass[f.visited..];
    assert f.pass[f.visited + 1..] == rest[1..];
    assert f.visited + 1 < |f.pass|;
  }

  lemma LeaveShapes(s: State, t: State)
    requires Shaped(s) && s.stack != [] && Top(s).Cancelling?
    requires t == s.(stack := t.stack)
    requires t.stack == s.stack[..|s.stack| - 1]
             || (t.stack != [] && t.stack[..|t.stack| - 1] == s.stack[..|s.stack| - 1]
                 && Top(t).Cancelling? && FrameSound(t.ops, t.registry, Top(t)))
    ensures Shaped(t)
  {
    hide FrameSound;
    var base := s.stack[..|s.stack| - 1];
    forall k | 0 <= k < |t.stack|
      ensures FrameSound(t.ops, t.registry, t.stack[k])
    {
      assert k < |base| ==> t.stack[k] == base[k] == s.stack[k];
    }
    forall j, k | 0 <= j < k < |t.stack| && t.stack[j].Submitting? && t.stack[k].Submitting?
      ensures t.stack[j].op != t.stack[k].op
    {
      assert t.stack[j] == s.stack[j] && t.stack[k] == s.stack[k];
    }
    assert Accounted(t);
  }

  lemma AdvanceKeeps(s: State)
    requires Inv(s) && Enabled(s, Advance)
    ensures Safe(s, Advance) && Inv(AdvanceCancel(s))
  {
    hide Balanced, Accounted, Unref, Past, PassSound, Successor;
    var f := Top(s);
    assert FrameSound(s.ops, s.registry, f);
    var rest := f.pass[f.visited..];
    match f.phase {
      case Broad =>
        ReplaceTop(s, f.(phase := Loop));
      case Visit =>
        LeaveKeeps(s, f);
      case Loop =>
        if f.operation.None? {
          PopEmptyPass(s);
        } else {
          var g := f.(next := Successor(s.registry, f.operation.value));
          LookAhead(s, f);
          LeaveKeeps(s, g);
          ReplaceTop(s, g.(phase := Visit));
        }
    }
  }

  /** The successor read from the list is the next pinned operation. */
  lemma LookAhead(s: State, f: Frame)
    requires Distinct(s.registry) && f.Cancelling? && FrameSound(s.ops, s.registry, f) && f.operation.Some?
    ensures FrameSound(s.ops, s.registry, f.(next := Successor(s.registry, f.operation.value), phase := Visit))
  {
    var rest := f.pass[f.visited..];
    assert rest[0] == f.operation.value;
    if f.visited + 1 < |f.pass| {
      assert Adjacent(s.registry, rest[1 - 1], rest[1]);
      SuccessorIsAdjacent(s.registry, rest[0], rest[1]);
    }
  }

  lemma PopEmptyPass(s: State)
    requires Inv(s) && s.stack != [] && Top(s).Cancelling? && Top(s).operation.None?
    ensures Inv(Pop(s))
  {
    assert FrameSound(s.ops, s.registry, Top(s));
    LeaveShapes(s, Pop(s));
    var t := Pop(s);
    assert s.stack == t.stack + [Top(s)];
    forall id | id in t.ops
      ensures t.ops[id].references == Owed(t, id)
    {
      HeldBySnoc(t.stack, Top(s), id);
    }
  }

  // ----- the theorems -----

  lemma StepKeeps(s: State, a: Action)
    requires Inv(s) && Enabled(s, a)
    ensures Safe(s, a) && Inv(Step(s, a))
  {
    hide Inv;
    match a {
      case Submit(context) => SubmitKeeps(s, context);
      case SubmitReturns(accepted) => SubmitReturnKeeps(s, accepted);
      case Complete(op) => CompleteKeeps(s, op);
      case CallbackReturns => CallbackReturnKeeps(s);
      case Cancel(context) => CancelKeeps(s, context);
      case Advance => AdvanceKeeps(s);
    }
  }

  lemma {:induction false} RunKeeps(actions: seq<Action>)
    ensures Inv(Run(actions))
  {
    if actions == [] {
      assert Inv(INITIAL);
    } else {
      var s := Run(actions[..|actions| - 1]);
      RunKeeps(actions[..|actions| - 1]);
      hide Inv;
      if Enabled(s, actions[|actions| - 1]) {
        StepKeeps(s, actions[|actions| - 1]);
      }
    }
  }

  /** In every reachable state the reference count of every live operation is the native side's
      reference plus the submission, completion and cancellation frames that hold it, and is not zero. */
  lemma ReferencesAreExact(actions: seq<Action>, id: Id)
    requires id in Run(actions).ops
    ensures var s := Run(actions); 0 < s.ops[id].references == Owed(s, id)
  {
    RunKeeps(actions);
  }

  /** No step ever reaches freed memory or drops a count below zero: whatever the native side or the
      caller does next is safe. */
  lemma NothingFreedIsUsed(actions: seq<Action>, a: Action)
    ensures Enabled(Run(actions), a) ==> Safe(Run(actions), a)
  {
    RunKeeps(actions);
    if Enabled(Run(actions), a) {
      StepKeeps(Run(actions), a);
    }
  }

  /** Each operation ever made is live or has been freed exactly once; when nothing runs and nothing is
      pending, all of them have been freed and the registry is empty. */
  lemma FreedExactlyOnce(actions: seq<Action>, id: Id)
    ensures var s := Run(actions);
            && Distinct(s.freed)
            && (id < s.unused <==> id in s.ops || id in s.freed)
            && !(id in s.ops && id in s.freed)
            && (s.stack == [] && s.native == {} ==>
                  s.ops == map[] && s.registry == [] && (id < s.unused <==> id in s.freed))
  {
    RunKeeps(actions);
    var s := Run(actions);
    assert s.registry != [] ==> s.registry[0] in s.ops;
    if s.stack == [] && s.native == {} {
      assert forall x :: Owed(s, x) == 0;
      assert forall x :: x !in s.ops;
    }
  }

  /** A cancellation pass in progress has dealt with a prefix of the registry it started from, its
      current operation is the next entry of that list, and it still pins exactly the rest. */
  lemma PassVisitsInOrder(actions: seq<Action>, k: nat)
    requires k < |Run(actions).stack| && Run(actions).stack[k].Cancelling?
    ensures var s := Run(actions);
            var f := s.stack[k];
            && Distinct(f.pass)
            && f.visited <= |f.pass|
            && f.operation == First(f.pass[f.visited..])
            && (forall id :: Held(f, id) == 1 <==> id in f.pass[f.visited..])
            && (forall i :: f.visited <= i < |f.pass| ==> f.pass[i] in s.ops && f.pass[i] in s.registry)
  {
    hide Inv, Run, FrameSound;
    RunKeeps(actions);
    StackIsSound(Run(actions), k);
    PassIsOrdered(Run(actions).ops, Run(actions).registry, Run(actions).stack[k]);
  }

  lemma StackIsSound(s: State, k: nat)
    requires Inv(s) && k < |s.stack|
    ensures FrameSound(s.ops, s.registry, s.stack[k])
  {
    hide FrameSound, Accounted, Balanced;
  }

  lemma PassIsOrdered(ops: map<Id, Operation>, registry: seq<Id>, f: Frame)
    requires f.Cancelling? && FrameSound(ops, registry, f)
    ensures Distinct(f.pass) && f.visited <= |f.pass|
    ensures f.operation == First(f.pass[f.visited..])
    ensures forall id :: Held(f, id) == 1 <==> id in f.pass[f.visited..]
    ensures forall i :: f.visited <= i < |f.pass| ==> f.pass[i] in ops && f.pass[i] in registry
  {
    hide Distinct, First, Last;
    forall i | f.visited <= i < |f.pass|
      ensures f.pass[i] in ops && f.pass[i] in registry
    {
      assert f.pass[f.visited..][i - f.visited] == f.pass[i];
    }
  }

  /** A turn of the loop calls native cancellation exactly for an operation that is not completed and
      carries the context being cancelled; any other is passed over. */
  lemma PassCancelsMatching(actions: seq<Action>)
    requires Enabled(Run(actions), Advance) && Top(Run(actions)).phase == Loop && Top(Run(actions)).operation.Some?
    ensures var s := Run(actions);
            var f := Top(s);
            var t := Apply(s, Advance);
            && f.operation.value in s.ops
            && (!s.ops[f.operation.value].completed && s.ops[f.operation.value].context == f.context <==>
                  |t.stack| == |s.stack| && Top(t).Cancelling? && Top(t).phase == Visit && Top(t).visited == f.visited)
  {
    hide Inv, Run, Unref;
    RunKeeps(actions);
    var s := Run(actions);
    StepKeeps(s, Advance);
    StackIsSound(s, |s.stack| - 1);
    var op := Top(s).operation.value;
    UnrefKeepsStack(Past(s, Top(s).(next := Successor(s.registry, op))), op);
  }

  lemma UnrefKeepsStack(s: State, id: Id)
    requires id in s.ops && s.ops[id].references > 0
    ensures Unref(s, id).stack == s.stack
  {
  }
}
