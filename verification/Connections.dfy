/** Connection registrations and slots of src/opcua_eventloop_impl.h as a step machine.

    A dispatch runs a user callback, which may open, close or receive on connections again, so what
    runs is a stack of frames and any action may come next. The native side promises this: it
    dispatches on a registration only for a connection it has announced and not yet closed, or to
    announce a new one, inside the open call or on a connection that accepts it; a new connection
    starts with the context of the open call or with that of the connection that accepted it; CLOSING
    is the last event of a connection, whose number is not reused before that event has been handled. */
module Connections {
  import opened Common

  /** A native connection, as announced on a registration. */
  datatype Key = Key(registration: nat, conn: nat)

  datatype Registration = Registration(references: nat, reserved: bool)

  datatype Slot = Slot(key: Key, references: nat, closed: bool)

  /** A running call. `releases` marks the final close of a connection that was rejected. */
  datatype Frame =
    | Opening(registration: nat)
    | Dispatching(key: Key, slot: Option<nat>, closing: bool, releases: bool)

  /** `live` are the native connections announced and not closed; those in `tagged` carry the failure
      tag as their context, because no slot could be allocated for them or for the one they came from. */
  datatype State = State(
    registrations: map<nat, Registration>,
    slots: map<nat, Slot>,
    connections: seq<nat>,
    live: set<Key>,
    tagged: set<Key>,
    stack: seq<Frame>,
    freed: seq<nat>,
    unused: nat)

  datatype Action =
    | Open
    | OpenReturns
    | Dispatch(key: Key, listener: Option<Key>, closing: bool, allocates: bool)
    | DispatchReturns

  const INITIAL := State(map[], map[], [], {}, {}, [], [], 0)

  function Top(s: State): Frame requires s.stack != [] { s.stack[|s.stack| - 1] }
  function Pop(s: State): State requires s.stack != [] { s.(stack := s.stack[..|s.stack| - 1]) }
  function Push(s: State, f: Frame): State { s.(stack := s.stack + [f]) }

  /** The linked slot of a connection, if it has one. */
  function Find(slots: map<nat, Slot>, xs: seq<nat>, key: Key): Option<nat> {
    if xs == [] then None
    else if xs[0] in slots && slots[xs[0]].key == key then Some(xs[0])
    else Find(slots, xs[1..], key)
  }

  predicate CanReleaseRegistration(s: State, r: nat, n: nat) {
    r in s.registrations && s.registrations[r].references >= n
  }

  predicate CanReleaseSlot(s: State, x: nat) {
    x in s.slots && s.slots[x].references > 0 && CanReleaseRegistration(s, s.slots[x].key.registration, 1)
  }

  function Retain(s: State, r: nat, n: nat): State
    requires r in s.registrations
  {
    var e := s.registrations[r];
    s.(registrations := s.registrations[r := e.(references := e.references + n)])
  }

  function ReleaseRegistration(s: State, r: nat): State
    requires CanReleaseRegistration(s, r, 1)
  {
    var e := s.registrations[r];
    if e.references > 1 then s.(registrations := s.registrations[r := e.(references := e.references - 1)])
    else s.(registrations := s.registrations - {r}, freed := s.freed + [r])
  }

  function ReleaseSlot(s: State, x: nat): State
    requires CanReleaseSlot(s, x)
  {
    var e := s.slots[x];
    if e.references > 1 then s.(slots := s.slots[x := e.(references := e.references - 1)])
    else
      var t := ReleaseRegistration(s, e.key.registration);
      t.(slots := t.slots - {x}, freed := t.freed + [x])
  }

  /** Take a slot out of the list; its list reference is then due. */
  function Unlink(s: State, x: nat): State
    requires x in s.slots
  {
    s.(connections := Without(s.connections, x), slots := s.slots[x := s.slots[x].(closed := true)])
  }

  predicate IsNew(s: State, key: Key) {
    && key !in s.live
    && (forall k :: 0 <= k < |s.stack| && s.stack[k].Dispatching? && s.stack[k].closing ==> s.stack[k].key != key)
  }

  /** Where a new connection comes from: the open call, or a connection of the same registration. */
  predicate Announced(s: State, key: Key, listener: Option<Key>) {
    match listener
    case None => exists k :: 0 <= k < |s.stack| && s.stack[k] == Opening(key.registration)
    case Some(other) => other in s.live && other.registration == key.registration
  }

  /** A new connection that starts with the failure tag of the connection that accepted it. */
  predicate Inherits(s: State, key: Key, listener: Option<Key>) {
    key !in s.live && listener.Some? && listener.value in s.tagged
  }

  predicate Enabled(s: State, a: Action) {
    match a
    case Open => true
    case OpenReturns => s.stack != [] && Top(s).Opening?
    case Dispatch(key, listener, _, _) => key in s.live || (IsNew(s, key) && Announced(s, key, listener))
    case DispatchReturns => s.stack != [] && Top(s).Dispatching?
  }

  function BeginOpen(s: State): State {
    Push(s.(registrations := s.registrations[s.unused := Registration(1, true)], unused := s.unused + 1),
         Opening(s.unused))
  }

  /** Link a new slot for `key`; it holds a reference on its registration. */
  function Link(s: State, key: Key): State
    requires key.registration in s.registrations
  {
    var t := Retain(s, key.registration, 1);
    t.(registrations := t.registrations[key.registration := t.registrations[key.registration].(reserved := false)],
       slots := t.slots[t.unused := Slot(key, 1, false)],
       connections := [t.unused] + t.connections,
       unused := t.unused + 1)
  }

  function Announce(s: State, key: Key, closing: bool): State {
    s.(live := if closing then s.live - {key} else s.live + {key})
  }

  /** Dispatch to a linked slot: pin it and run the callback. */
  function EnterSlot(s: State, key: Key, x: nat, closing: bool): State
    requires x in s.slots
  {
    Push(s.(slots := s.slots[x := s.slots[x].(references := s.slots[x].references + 1)]),
         Dispatching(key, Some(x), closing, false))
  }

  /** Dispatch without a slot: a rejected connection keeps its registration until its final close. */
  function EnterRejected(s: State, key: Key, closing: bool): State
    requires key.registration in s.registrations
  {
    if key in s.tagged then
      Push(if closing then s.(tagged := s.tagged - {key}) else s, Dispatching(key, None, closing, closing))
    else if closing then Push(s, Dispatching(key, None, closing, false))
    else Push(Retain(s.(tagged := s.tagged + {key}), key.registration, 1), Dispatching(key, None, closing, false))
  }

  /** A connection's context as it arrives: a new one has that of its listener. */
  function Arrive(s: State, key: Key, listener: Option<Key>): State {
    if Inherits(s, key, listener) then s.(tagged := s.tagged + {key}) else s
  }

  function BeginDispatch(s: State, key: Key, listener: Option<Key>, closing: bool, allocates: bool): State
    requires key.registration in s.registrations
  {
    var t := Announce(Retain(Arrive(s, key, listener), key.registration, 1), key, closing);
    var entry := Find(t.slots, t.connections, key);
    if entry.Some? && entry.value in t.slots then EnterSlot(t, key, entry.value, closing)
    else if key !in t.tagged && (t.registrations[key.registration].reserved || allocates) then
      EnterSlot(Link(t, key), key, t.unused, closing)
    else EnterRejected(t, key, closing)
  }

  /** Nothing a step touches has been freed, and no count it drops is zero. */
  predicate Safe(s: State, a: Action) {
    match a
    case Open => true
    case OpenReturns => Enabled(s, a) ==> CanReleaseRegistration(s, Top(s).registration, 1)
    case Dispatch(key, _, _, _) => Enabled(s, a) ==> key.registration in s.registrations
    case DispatchReturns =>
      Enabled(s, a) ==>
        var f := Top(s);
        match f.slot
        case None => CanReleaseRegistration(s, f.key.registration, if f.releases then 2 else 1)
        case Some(x) =>
          && CanReleaseRegistration(s, f.key.registration, 2)
          && x in s.slots && s.slots[x].key == f.key
          && s.slots[x].references > if f.closing && !s.slots[x].closed then 1 else 0
  }

  /** What follows the callback of a dispatch. */
  function FinishDispatch(s: State): State
    requires Enabled(s, DispatchReturns) && Safe(s, DispatchReturns)
  {
    var f := Top(s);
    var t := Pop(s);
    match f.slot
    case None =>
      var u := if f.releases then ReleaseRegistration(t, f.key.registration) else t;
      ReleaseRegistration(u, f.key.registration)
    case Some(x) =>
      var u := if f.closing && !t.slots[x].closed then ReleaseSlot(Unlink(t, x), x) else t;
      ReleaseRegistration(ReleaseSlot(u, x), f.key.registration)
  }

  function Step(s: State, a: Action): State
    requires Enabled(s, a) && Safe(s, a)
  {
    match a
    case Open => BeginOpen(s)
    case OpenReturns => ReleaseRegistration(Pop(s), Top(s).registration)
    case Dispatch(key, listener, closing, allocates) => BeginDispatch(s, key, listener, closing, allocates)
    case DispatchReturns => FinishDispatch(s)
  }
}
