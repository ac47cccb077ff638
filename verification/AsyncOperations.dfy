/** Server-side asynchronous operations of src/opcua_callbacks_impl.h as a step machine.

    User callbacks may submit, cancel or run the server again, so what is running is a stack of
    frames and any action may come next. The native side promises only this: it completes an
    operation at most once, and never once it has refused it (`native` is what it may still complete). */
module AsyncOperations {
  import opened Common

  type Id = nat

  datatype Operation = Operation(context: nat, references: nat, completed: bool)

  /** `Broad`: inside the first native cancel call. `Loop`: between two turns of the loop.
      `Visit`: inside the native cancel call for the current operation. */
  datatype Phase = Broad | Loop | Visit

  /** A running call. A cancellation keeps the three pointers of the source; `pass` is the registry
      when it began and `visited` how many of its entries have been dealt with. */
  datatype Frame =
    | Submitting(op: Id)
    | Completing(op: Id)
    | Cancelling(context: nat, operation: Option<Id>, last: Option<Id>, next: Option<Id>, phase: Phase,
                 pass: seq<Id>, visited: nat)

  datatype State = State(
    ops: map<Id, Operation>,
    registry: seq<Id>,
    native: set<Id>,
    stack: seq<Frame>,
    freed: seq<Id>,
    unused: Id)

  datatype Action =
    | Submit(context: nat)
    | SubmitReturns(accepted: bool)
    | Complete(op: Id)
    | CallbackReturns
    | Cancel(context: nat)
    | Advance

  const INITIAL := State(map[], [], {}, [], [], 0)

  function Top(s: State): Frame requires s.stack != [] { s.stack[|s.stack| - 1] }
  function Pop(s: State): State requires s.stack != [] { s.(stack := s.stack[..|s.stack| - 1]) }
  function Push(s: State, f: Frame): State { s.(stack := s.stack + [f]) }

  /** The entry after `x` in the registry list. */
  function Successor(xs: seq<Id>, x: Id): Option<Id> {
    if |xs| < 2 then None else if xs[0] == x then Some(xs[1]) else Successor(xs[1..], x)
  }

  /** Drop one reference; the last one unlinks and frees. */
  function Unref(s: State, id: Id): State
    requires id in s.ops && s.ops[id].references > 0
  {
    var o := s.ops[id];
    if o.references > 1 then s.(ops := s.ops[id := o.(references := o.references - 1)])
    else s.(ops := s.ops - {id}, registry := Without(s.registry, id), freed := s.freed + [id])
  }

  /** Nothing a step touches has been freed, and no count it drops is zero. */
  predicate Safe(s: State, a: Action) {
    match a
    case Submit(_) => true
    case Cancel(_) => forall id :: id in s.registry ==> id in s.ops
    case Complete(op) => op in s.native ==> op in s.ops
    case SubmitReturns(accepted) =>
      (s.stack != [] && Top(s).Submitting?) ==>
        && Top(s).op in s.ops
        && s.ops[Top(s).op].references > if accepted || s.ops[Top(s).op].completed then 0 else 1
    case CallbackReturns =>
      (s.stack != [] && Top(s).Completing?) ==> Top(s).op in s.ops && s.ops[Top(s).op].references > 0
    case Advance =>
      (s.stack != [] && Top(s).Cancelling? && Top(s).phase != Broad && Top(s).operation.Some?) ==>
        Top(s).operation.value in s.ops && s.ops[Top(s).operation.value].references > 0
  }

  predicate Enabled(s: State, a: Action) {
    match a
    case Submit(_) => true
    case Cancel(_) => true
    case Complete(op) => op in s.native
    case SubmitReturns(_) => s.stack != [] && Top(s).Submitting?
    case CallbackReturns => s.stack != [] && Top(s).Completing?
    case Advance => s.stack != [] && Top(s).Cancelling? && (Top(s).phase == Visit ==> Top(s).operation.Some?)
  }

  function BeginSubmit(s: State, context: nat): State {
    Push(s.(ops := s.ops[s.unused := Operation(context, 2, false)],
            native := s.native + {s.unused},
            unused := s.unused + 1),
         Submitting(s.unused))
  }

  function FinishSubmit(s: State, accepted: bool): State
    requires Enabled(s, SubmitReturns(accepted)) && Safe(s, SubmitReturns(accepted))
  {
    var op := Top(s).op;
    var t := Pop(s);
    if t.ops[op].completed then Unref(t, op)
    else if accepted then Unref(t.(registry := t.registry + [op]), op)
    else Unref(Unref(t.(native := t.native - {op}), op), op)
  }

  function BeginComplete(s: State, op: Id): State
    requires op in s.ops
  {
    Push(s.(ops := s.ops[op := s.ops[op].(completed := true)], native := s.native - {op}), Completing(op))
  }

  function First(xs: seq<Id>): Option<Id> { if xs == [] then None else Some(xs[0]) }
  function Last(xs: seq<Id>): Option<Id> { if xs == [] then None else Some(xs[|xs| - 1]) }

  /** Pin every registered operation, then call native cancellation. */
  function BeginCancel(s: State, context: nat): State {
    Push(s.(ops := map id | id in s.ops ::
              if id in s.registry then s.ops[id].(references := s.ops[id].references + 1) else s.ops[id]),
         Cancelling(context, First(s.registry), Last(s.registry), None, Broad, s.registry, 0))
  }

  /** The cancellation on top moves on, or ends behind the last operation it pinned. */
  function Past(s: State, f: Frame): State
    requires s.stack != [] && f.Cancelling?
  {
    if f.operation == f.last then Pop(s)
    else Push(Pop(s), f.(operation := f.next, phase := Loop, visited := f.visited + 1))
  }

  /** Unpin the current operation and move on. */
  function Leave(s: State, f: Frame): State
    requires s.stack != [] && f.Cancelling? && f.operation.Some?
    requires f.operation.value in s.ops && s.ops[f.operation.value].references > 0
  {
    Unref(Past(s, f), f.operation.value)
  }

  function AdvanceCancel(s: State): State
    requires Enabled(s, Advance) && Safe(s, Advance)
  {
    var f := Top(s);
    match f.phase
    case Broad => Push(Pop(s), f.(phase := Loop))
    case Visit => Leave(s, f)
    case Loop =>
      if f.operation.None? then Pop(s)
      else
        var op := f.operation.value;
        var g := f.(next := Successor(s.registry, op));
        if !s.ops[op].completed && s.ops[op].context == f.context then Push(Pop(s), g.(phase := Visit))
        else Leave(s, g)
  }

  function Step(s: State, a: Action): State
    requires Enabled(s, a) && Safe(s, a)
  {
    match a
    case Submit(context) => BeginSubmit(s, context)
    case SubmitReturns(accepted) => FinishSubmit(s, accepted)
    case Complete(op) => BeginComplete(s, op)
    case CallbackReturns => Unref(Pop(s), Top(s).op)
    case Cancel(context) => BeginCancel(s, context)
    case Advance => AdvanceCancel(s)
  }
}
