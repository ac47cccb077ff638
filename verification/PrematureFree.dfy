/** What an inherited failure tag leads to: after such a step of Connections, and only then, some
    continuation reaches a registration that has been freed. */
module PrematureFree {
  import opened Common
  import opened Connections
  import opened ConnectionProofs

  function After(s: State, actions: seq<Action>): State
    decreases |actions|
  {
    if actions == [] then s else After(Apply(s, actions[0]), actions[1..])
  }

  /** No connection announced by these actions carries an inherited tag. */
  predicate NoneInherit(s: State, actions: seq<Action>)
    decreases |actions|
  {
    actions == [] ||
    ((Enabled(s, actions[0]) ==> !InheritsTag(s, actions[0])) && NoneInherit(Apply(s, actions[0]), actions[1..]))
  }

  /** An action the native contract allows but that reaches freed memory. */
  predicate ReachesFreed(s: State, a: Action) { Enabled(s, a) && !Safe(s, a) }

  // ----- a state with one reference missing -----

  function Less(registrations: map<nat, Registration>, r: nat): map<nat, Registration>
    requires r in registrations
  {
    var e := registrations[r];
    if e.references > 1 then registrations[r := e.(references := e.references - 1)] else registrations - {r}
  }

  /** `q` is `p` with one reference on `r` missing; if that was the last, `r` has been freed. */
  ghost predicate Short(q: State, p: State, r: nat) {
    r in p.registrations && q == p.(registrations := Less(p.registrations, r), freed := q.freed)
  }

  lemma ShortRelease(q: State, p: State, r: nat, n: nat)
    requires Short(q, p, r) && CanReleaseRegistration(q, n, 1)
    ensures CanReleaseRegistration(p, n, 1) && Short(ReleaseRegistration(q, n), ReleaseRegistration(p, n), r)
  {
    var q', p' := ReleaseRegistration(q, n), ReleaseRegistration(p, n);
    assert r in p'.registrations;
    assert q'.registrations == Less(p'.registrations, r);
  }

  lemma ShortRetain(q: State, p: State, r: nat, n: nat)
    requires Short(q, p, r) && n in q.registrations
    requires forall k :: k in p.registrations ==> p.registrations[k].references > 0
    ensures n in p.registrations && Short(Retain(q, n, 1), Retain(p, n, 1), r)
  {
    var q', p' := Retain(q, n, 1), Retain(p, n, 1);
    assert q'.registrations == Less(p'.registrations, r);
  }

  lemma ShortReleaseSlot(q: State, p: State, r: nat, x: nat)
    requires Short(q, p, r) && CanReleaseSlot(q, x)
    ensures CanReleaseSlot(p, x) && Short(ReleaseSlot(q, x), ReleaseSlot(p, x), r)
  {
    hide Less;
    if q.slots[x].references == 1 {
      ShortRelease(q, p, r, q.slots[x].key.registration);
    } else {
      ShortHas(q, p, r, q.slots[x].key.registration);
    }
  }

  lemma ShortHas(q: State, p: State, r: nat, n: nat)
    requires Short(q, p, r) && CanReleaseRegistration(q, n, 1)
    ensures CanReleaseRegistration(p, n, 1)
  {
  }

  // ----- the two states step alike -----

  lemma ShortPops(q: State, p: State, r: nat)
    requires Short(q, p, r) && q.stack != []
    ensures Short(Pop(q), Pop(p), r)
  {
  }

  lemma ShortOpenReturns(q: State, p: State, r: nat)
    requires Short(q, p, r) && Enabled(q, OpenReturns) && Safe(q, OpenReturns) && Safe(p, OpenReturns)
    ensures Short(Step(q, OpenReturns), Step(p, OpenReturns), r)
  {
    ShortPops(q, p, r);
    ShortRelease(Pop(q), Pop(p), r, Top(q).registration);
  }

  lemma ShortReturnsWithout(q: State, p: State, r: nat)
    requires Short(q, p, r) && Enabled(q, DispatchReturns) && Safe(q, DispatchReturns) && Safe(p, DispatchReturns)
    requires Top(q).slot.None?
    ensures Short(Step(q, DispatchReturns), Step(p, DispatchReturns), r)
  {
    hide Short, Less;
    assert Top(q) == Top(p) by { SameFrames(q, p, r); }
    var n := Top(q).key.registration;
    ShortPops(q, p, r);
    var t, u := Pop(q), Pop(p);
    if Top(q).releases {
      ShortRelease(t, u, r, n);
      t, u := ReleaseRegistration(t, n), ReleaseRegistration(u, n);
    }
    ShortRelease(t, u, r, n);
  }

  lemma SameFrames(q: State, p: State, r: nat)
    requires Short(q, p, r)
    ensures q.stack == p.stack && q.live == p.live && q.slots == p.slots && q.connections == p.connections
    ensures q.tagged == p.tagged
  {
  }

  lemma ShortUnlinks(q: State, p: State, r: nat, x: nat)
    requires Short(q, p, r) && x in q.slots
    ensures Short(Unlink(q, x), Unlink(p, x), r)
  {
  }

  lemma ShortReturnsWith(q: State, p: State, r: nat)
    requires Short(q, p, r) && Enabled(q, DispatchReturns) && Safe(q, DispatchReturns) && Safe(p, DispatchReturns)
    requires Top(q).slot.Some?
    ensures Short(Step(q, DispatchReturns), Step(p, DispatchReturns), r)
  {
    hide Short, Less;
    SameFrames(q, p, r);
    var f := Top(q);
    var x, n := f.slot.value, f.key.registration;
    ShortPops(q, p, r);
    var t, u := Pop(q), Pop(p);
    if f.closing && !t.slots[x].closed {
      ShortUnlinks(t, u, r, x);
      ShortReleaseSlot(Unlink(t, x), Unlink(u, x), r, x);
      t, u := ReleaseSlot(Unlink(t, x), x), ReleaseSlot(Unlink(u, x), x);
    }
    ShortReleaseSlot(t, u, r, x);
    ShortRelease(ReleaseSlot(t, x), ReleaseSlot(u, x), r, n);
  }

  /** The final event of a connection that is live. */
  function Close(key: Key): Action { Dispatch(key, None, true, false) }

  lemma LiveHasPlace(p: State, key: Key)
    requires Inv(p) && key in p.live
    ensures Find(p.slots, p.connections, key).Some? || key in p.tagged
    ensures Find(p.slots, p.connections, key).Some? ==> Find(p.slots, p.connections, key).value in p.slots
    ensures forall k :: k in p.registrations ==> p.registrations[k].references > 0
  {
    FindLinked(p, key);
  }

  lemma ShortCloses(q: State, p: State, r: nat, key: Key)
    requires Short(q, p, r) && Inv(p) && key in q.live && Safe(q, Close(key)) && Safe(p, Close(key))
    ensures Short(Step(q, Close(key)), Step(p, Close(key)), r)
    ensures Step(p, Close(key)).live == p.live - {key}
  {
    hide Inv, Less, Find;
    LiveHasPlace(p, key);
    ShortRetain(q, p, r, key.registration);
  }

  /** What empties the stack and closes every connection. */
  function Winds(s: State): Action
    requires s.stack != []
  {
    if Top(s).Opening? then OpenReturns else DispatchReturns
  }

  lemma ShortWinds(q: State, p: State, r: nat)
    requires Short(q, p, r) && Inv(p) && q.stack != [] && Safe(q, Winds(q))
    ensures Enabled(q, Winds(q)) && Enabled(p, Winds(q)) && Safe(p, Winds(q)) && Inv(Step(p, Winds(q)))
    ensures Short(Step(q, Winds(q)), Step(p, Winds(q)), r)
  {
    hide Inv, Less, Step, Safe;
    SameFrames(q, p, r);
    StepKeeps(p, Winds(q));
    if Top(q).Opening? {
      ShortOpenReturns(q, p, r);
    } else if Top(q).slot.Some? {
      ShortReturnsWith(q, p, r);
    } else {
      ShortReturnsWithout(q, p, r);
    }
  }

  lemma WindsShrinks(p: State)
    requires p.stack != [] && Safe(p, Winds(p))
    ensures Step(p, Winds(p)).live == p.live && |Step(p, Winds(p)).stack| == |p.stack| - 1
  {
  }

  /** With one reference missing, letting every call return and closing every connection reaches the
      registration after it has been freed. */
  lemma {:induction false} MissingReferenceIsReached(q: State, p: State, r: nat) returns (more: seq<Action>, b: Action)
    requires Short(q, p, r) && Inv(p)
    ensures NoneInherit(q, more) && ReachesFreed(After(q, more), b)
    decreases |p.live|, |p.stack|
  {
    hide Inv, Less, Step, Safe;
    SameFrames(q, p, r);
    more, b := [], Open;
    var key: Key;
    if q.stack != [] {
      b := Winds(q);
    } else if q.live != {} {
      key :| key in q.live;
      b := Close(key);
    } else {
      Quiet(p);
      assert false;
    }
    if Safe(q, b) {
      StepKeeps(p, b);
      if q.stack != [] {
        ShortWinds(q, p, r);
        WindsShrinks(p);
      } else {
        ShortCloses(q, p, r, key);
      }
      var rest, c := MissingReferenceIsReached(Step(q, b), Step(p, b), r);
      more := [b] + rest;
      assert more[1..] == rest;
      b := c;
    }
  }

  // ----- an inherited tag leaves one missing -----

  lemma NewHasNoPlace(s: State, key: Key, listener: Option<Key>)
    requires Inv(s) && key !in s.live && IsNew(s, key) && Announced(s, key, listener)
    ensures key.registration in s.registrations && !Linked(s, key) && key !in s.tagged
    ensures Find(s.slots, s.connections, key) == None
  {
    DispatchContext(s, key, listener);
    NotLinkedIsUntagged(s, key);
    FindLinked(s, key);
  }

  /** Had the connection been rejected for itself, its tag would have come with a reference. */
  lemma RejectedProperly(s: State, key: Key) returns (p: State)
    requires Inv(s) && IsNew(s, key) && key.registration in s.registrations && !Linked(s, key) && key !in s.tagged
    ensures p == Rejecting(s, key, false) && Inv(p)
    ensures var r := key.registration;
            p == s.(registrations := Retain(s, r, 2).registrations,
                    live := s.live + {key}, tagged := s.tagged + {key},
                    stack := s.stack + [Dispatching(key, None, false, false)])
  {
    hide Inv, Linked, IsNew;
    RejectKeeps(s, key, false);
    p := Rejecting(s, key, false);
  }

  /** And its close would have dropped that reference. */
  lemma ClosedProperly(s: State, key: Key) returns (p: State)
    requires Inv(s) && IsNew(s, key) && key.registration in s.registrations && !Linked(s, key) && key !in s.tagged
    ensures Inv(p)
    ensures var r := key.registration;
            p == s.(registrations := Retain(s, r, 2).registrations,
                    stack := s.stack + [Dispatching(key, None, true, true)])
  {
    hide Inv, IsNew, Linked;
    var r := key.registration;
    var e := s.registrations[r];
    var one := RejectedProperly(s, key);
    StepKeeps(one, DispatchReturns);
    var two := Step(one, DispatchReturns);
    assert two == s.(registrations := s.registrations[r := e.(references := e.references + 1)],
                     live := s.live + {key}, tagged := s.tagged + {key}) by {
      assert Pop(one).stack == s.stack;
    }
    SamePlaces(s, two, key);
    RejectKeeps(two, key, true);
    p := Rejecting(two, key, true);
    assert s.live + {key} - {key} == s.live by { NewIsDead(s, key); }
    assert s.tagged + {key} - {key} == s.tagged;
  }

  lemma NewIsDead(s: State, key: Key)
    requires IsNew(s, key)
    ensures key !in s.live
  {
  }

  lemma InheritedLacksOne(s: State, a: Action) returns (p: State)
    requires Inv(s) && Enabled(s, a) && InheritsTag(s, a)
    ensures Safe(s, a) && Inv(p) && Short(Step(s, a), p, a.key.registration)
  {
    hide Inv, Find, IsNew, Announced, Linked;
    var key := a.key;
    NewHasNoPlace(s, key, a.listener);
    if a.closing {
      p := ClosedProperly(s, key);
      assert s.live - {key} == s.live && s.tagged + {key} - {key} == s.tagged;
    } else {
      p := RejectedProperly(s, key);
    }
    var q, r := Step(s, a), key.registration;
    assert q.registrations == Less(p.registrations, r);
  }

  lemma {:induction false} SafeWhileNoneInherit(s: State, more: seq<Action>, b: Action)
    requires Inv(s) && NoneInherit(s, more)
    ensures !ReachesFreed(After(s, more), b)
    decreases |more|
  {
    hide Inv, Step, Safe, Enabled, InheritsTag;
    if more == [] {
      if Enabled(s, b) {
        StepKeeps(s, b);
      }
    } else {
      if Enabled(s, more[0]) {
        StepKeeps(s, more[0]);
      }
      SafeWhileNoneInherit(Apply(s, more[0]), more[1..], b);
    }
  }

  /** After any run without inherited tags, the next action makes it possible to reach freed memory,
      with no further inherited tag, if and only if it announces a connection on one that carries
      the failure tag. */
  lemma FreedIsReachableIffInherits(actions: seq<Action>, a: Action)
    requires NeverInherits(actions) && Enabled(Run(actions), a)
    ensures var t := Apply(Run(actions), a);
            (exists more, b :: NoneInherit(t, more) && ReachesFreed(After(t, more), b))
            <==> InheritsTag(Run(actions), a)
  {
    hide Inv, Run, Step, Safe, Enabled, NoneInherit, ReachesFreed, After;
    var s := Run(actions);
    RunKeeps(actions);
    StepKeeps(s, a);
    var t := Apply(s, a);
    if InheritsTag(s, a) {
      var p := InheritedLacksOne(s, a);
      var more, b := MissingReferenceIsReached(t, p, a.key.registration);
    } else {
      forall more, b | NoneInherit(t, more)
        ensures !ReachesFreed(After(t, more), b)
      {
        SafeWhileNoneInherit(t, more, b);
      }
    }
  }
}
