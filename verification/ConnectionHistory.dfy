/** Which connections of Connections get a slot, read off the actions of a run. */
module ConnectionHistory {
  import opened Common
  import opened Connections
  import opened ConnectionProofs

  /** The registrations on which a connection has been announced. */
  function Announcing(actions: seq<Action>): set<nat> {
    if actions == [] then {}
    else
      var init, a := actions[..|actions| - 1], actions[|actions| - 1];
      Announcing(init) + if a.Dispatch? && Enabled(Run(init), a) then {a.key.registration} else {}
  }

  /** The slot made with a registration is there until a connection is announced on it. */
  ghost predicate Reserves(s: State, announcing: set<nat>) {
    && (forall r :: r in s.registrations ==> (s.registrations[r].reserved <==> r !in announcing))
    && (forall key :: key in s.live ==> key.registration in announcing)
    && (forall r :: r in announcing ==> r < s.unused)
  }

  lemma ReleaseReserves(s: State, r: nat, announcing: set<nat>)
    requires Reserves(s, announcing) && CanReleaseRegistration(s, r, 1)
    ensures Reserves(ReleaseRegistration(s, r), announcing)
  {
  }

  lemma ReleaseSlotReserves(s: State, x: nat, announcing: set<nat>)
    requires Reserves(s, announcing) && CanReleaseSlot(s, x)
    ensures Reserves(ReleaseSlot(s, x), announcing)
  {
    hide Reserves;
    if s.slots[x].references == 1 {
      ReleaseReserves(s, s.slots[x].key.registration, announcing);
      SlotsDoNotMatter(ReleaseRegistration(s, s.slots[x].key.registration), ReleaseSlot(s, x), announcing);
    } else {
      SlotsDoNotMatter(s, ReleaseSlot(s, x), announcing);
    }
  }

  lemma SlotsDoNotMatter(s: State, t: State, announcing: set<nat>)
    requires Reserves(s, announcing)
    requires t.registrations == s.registrations && t.live == s.live && t.unused == s.unused
    ensures Reserves(t, announcing)
  {
  }

  lemma ReturnReserves(s: State, announcing: set<nat>)
    requires Reserves(s, announcing) && Enabled(s, DispatchReturns) && Safe(s, DispatchReturns)
    ensures Reserves(FinishDispatch(s), announcing)
  {
    hide Reserves;
    var f, t := Top(s), Pop(s);
    SlotsDoNotMatter(s, t, announcing);
    match f.slot {
      case None =>
        ReleaseReserves(t, f.key.registration, announcing);
        if f.releases {
          ReleaseReserves(ReleaseRegistration(t, f.key.registration), f.key.registration, announcing);
        }
      case Some(x) =>
        var u := t;
        if f.closing && !t.slots[x].closed {
          SlotsDoNotMatter(t, Unlink(t, x), announcing);
          ReleaseSlotReserves(Unlink(t, x), x, announcing);
          u := ReleaseSlot(Unlink(t, x), x);
        }
        ReleaseSlotReserves(u, x, announcing);
        ReleaseReserves(ReleaseSlot(u, x), f.key.registration, announcing);
    }
  }

  lemma DispatchReserves(s: State, a: Action, announcing: set<nat>)
    requires Reserves(s, announcing) && Inv(s) && a.Dispatch? && Enabled(s, a) && Safe(s, a) && !InheritsTag(s, a)
    ensures Reserves(Step(s, a), announcing + {a.key.registration})
  {
    hide Inv, Find, IsNew, Announced;
    RegistrationsAreOld(s);
    assert a.key in s.live || IsNew(s, a.key);
    if a.key in s.live {
      assert a.key.registration in announcing;
    }
    Placed(s, a);
  }

  lemma RegistrationsAreOld(s: State)
    requires Inv(s)
    ensures forall r :: r in s.registrations ==> r < s.unused
  {
  }

  /** A connection that is live has its place; a new one has none. */
  lemma Placed(s: State, a: Action)
    requires Inv(s) && a.Dispatch? && Enabled(s, a)
    ensures var entry := Find(s.slots, s.connections, a.key);
            && (entry.Some? ==> entry.value in s.slots)
            && (a.key in s.live ==> entry.Some? || a.key in s.tagged)
            && (a.key !in s.live ==> entry.None? && a.key !in s.tagged)
  {
    FindLinked(s, a.key);
    DispatchContext(s, a.key, a.listener);
  }

  lemma {:induction false} RunReserves(actions: seq<Action>)
    requires NeverInherits(actions)
    ensures Reserves(Run(actions), Announcing(actions))
  {
    if actions != [] {
      hide Reserves, Inv, Enabled, Safe, InheritsTag;
      var init, a := actions[..|actions| - 1], actions[|actions| - 1];
      var s := Run(init);
      RunReserves(init);
      RunKeeps(init);
      if Enabled(s, a) {
        StepKeeps(s, a);
        StepReserves(s, a, Announcing(init));
      }
    } else {
      assert Reserves(INITIAL, {});
    }
  }

  lemma StepReserves(s: State, a: Action, announcing: set<nat>)
    requires Reserves(s, announcing) && Inv(s) && Enabled(s, a) && Safe(s, a) && !InheritsTag(s, a)
    ensures Reserves(Step(s, a), announcing + if a.Dispatch? then {a.key.registration} else {})
  {
    hide Inv, FinishDispatch, BeginDispatch;
    assert announcing + {} == announcing;
    match a {
      case Open =>
      case OpenReturns =>
        SlotsDoNotMatter(s, Pop(s), announcing);
        ReleaseReserves(Pop(s), Top(s).registration, announcing);
      case Dispatch(_, _, _, _) => DispatchReserves(s, a, announcing);
      case DispatchReturns => ReturnReserves(s, announcing);
    }
  }

  /** A connection that is announced gets a slot if and only if it is the first of its registration, for which
      one was reserved, or another can be allocated; otherwise it is rejected, and carries the failure
      tag until its final close. */
  lemma NewConnectionGetsSlot(actions: seq<Action>, a: Action)
    requires NeverInherits(actions) && a.Dispatch? && Enabled(Run(actions), a) && a.key !in Run(actions).live
    requires !InheritsTag(Run(actions), a)
    ensures var t := Apply(Run(actions), a);
            && (Linked(t, a.key) <==> a.key.registration !in Announcing(actions) || a.allocates)
            && (a.key in t.tagged <==> !Linked(t, a.key) && !a.closing)
  {
    hide Run, Inv, Find, IsNew, Announced, Announcing, Linked;
    var s := Run(actions);
    RunKeeps(actions);
    RunReserves(actions);
    StepKeeps(s, a);
    Placed(s, a);
    assert !Linked(s, a.key) by { FoundIsLinked(s, a.key); }
    var t := Step(s, a);
    if s.registrations[a.key.registration].reserved || a.allocates {
      assert t.connections == [s.unused] + s.connections && t.slots[s.unused].key == a.key;
      HeadIsLinked(t, a.key);
    } else {
      assert t.connections == s.connections && t.slots == s.slots;
      SamePlaces(s, t, a.key);
    }
  }

  lemma FoundIsLinked(s: State, key: Key)
    requires Inv(s)
    ensures Linked(s, key) <==> Find(s.slots, s.connections, key).Some?
  {
    FindLinked(s, key);
  }

  lemma HeadIsLinked(t: State, key: Key)
    requires t.connections != [] && t.connections[0] in t.slots && t.slots[t.connections[0]].key == key
    ensures Linked(t, key)
  {
    assert t.connections[0] in t.connections;
  }
}
