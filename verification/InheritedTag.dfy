/** A run of Connections in which an inherited failure tag frees a registration too early. */
module InheritedTag {
  import opened Common
  import opened Connections
  import opened ConnectionProofs

  const FIRST: Key := Key(0, 1)
  const REJECTED: Key := Key(0, 2)
  const CHILD: Key := Key(0, 3)

  /** One open call announces two connections and only the first gets a slot; before the second is
      closed it accepts a child; the child closes, then the second connection does. */
  const TOO_EARLY: seq<Action> := [
    Open, Dispatch(FIRST, None, false, true), DispatchReturns, Dispatch(REJECTED, None, false, false), DispatchReturns,
    OpenReturns, Dispatch(CHILD, Some(REJECTED), true, false), DispatchReturns,
    Dispatch(REJECTED, None, true, false), DispatchReturns]

  /** State of that run while the registration lives. */
  function Early(references: nat, frames: seq<Frame>, pinned: nat, live: set<Key>, tagged: set<Key>): State {
    State(map[0 := Registration(references, false)], map[1 := Slot(FIRST, pinned, false)], [1],
          live, tagged, frames, [], 2)
  }

  const OPENED: State := State(map[0 := Registration(1, true)], map[], [], {}, {}, [Opening(0)], [], 1)

  /** One more action of the run. */
  ghost predicate Takes(s: State, a: Action, t: State) { Enabled(s, a) && Safe(s, a) && Step(s, a) == t }

  lemma FirstGetsSlot()
    ensures Takes(OPENED, Dispatch(FIRST, None, false, true),
                  Early(3, [Opening(0), Dispatching(FIRST, Some(1), false, false)], 2, {FIRST}, {}))
  {
    assert OPENED.stack[0] == Opening(0);
    var t := BeginDispatch(OPENED, FIRST, None, false, true);
    assert Find(OPENED.slots, OPENED.connections, FIRST) == None;
    assert t.registrations == map[0 := Registration(3, false)];
    assert t.slots == map[1 := Slot(FIRST, 2, false)];
  }

  lemma FirstReturns()
    ensures Takes(Early(3, [Opening(0), Dispatching(FIRST, Some(1), false, false)], 2, {FIRST}, {}), DispatchReturns,
                  Early(2, [Opening(0)], 1, {FIRST}, {}))
  {
    var s := Early(3, [Opening(0), Dispatching(FIRST, Some(1), false, false)], 2, {FIRST}, {});
    var t := FinishDispatch(s);
    assert t.registrations == map[0 := Registration(2, false)];
    assert t.slots == map[1 := Slot(FIRST, 1, false)];
  }

  lemma OnlyFirstIsFound(s: State, key: Key)
    requires s.slots == map[1 := Slot(FIRST, 1, false)] && s.connections == [1] && key != FIRST
    ensures Find(s.slots, s.connections, key) == None
  {
    assert s.connections[1..] == [];
  }

  lemma SecondIsRejected()
    ensures Takes(Early(2, [Opening(0)], 1, {FIRST}, {}), Dispatch(REJECTED, None, false, false),
                  Early(4, [Opening(0), Dispatching(REJECTED, None, false, false)], 1, {FIRST, REJECTED}, {REJECTED}))
  {
    hide Find;
    var s := Early(2, [Opening(0)], 1, {FIRST}, {});
    assert s.stack[0] == Opening(0);
    OnlyFirstIsFound(s, REJECTED);
    var t := BeginDispatch(s, REJECTED, None, false, false);
    assert t.registrations == map[0 := Registration(4, false)];
    assert t.live == {FIRST, REJECTED};
  }

  lemma RejectionReturns(n: nat, below: seq<Frame>, f: Frame, live: set<Key>, tagged: set<Key>)
    requires f.Dispatching? && f.key.registration == 0 && f.slot == None && n > if f.releases then 2 else 1
    ensures Takes(Early(n, below + [f], 1, live, tagged), DispatchReturns,
                  Early(n - if f.releases then 2 else 1, below, 1, live, tagged))
  {
    var s := Early(n, below + [f], 1, live, tagged);
    assert Pop(s).stack == below;
    var t := FinishDispatch(s);
    assert t.registrations == map[0 := Registration(n - if f.releases then 2 else 1, false)];
  }

  lemma OpenEnds()
    ensures Takes(Early(3, [Opening(0)], 1, {FIRST, REJECTED}, {REJECTED}), OpenReturns,
                  Early(2, [], 1, {FIRST, REJECTED}, {REJECTED}))
  {
    var s := Early(3, [Opening(0)], 1, {FIRST, REJECTED}, {REJECTED});
    assert ReleaseRegistration(Pop(s), 0).registrations == map[0 := Registration(2, false)];
  }

  lemma ChildCloses()
    ensures Takes(Early(2, [], 1, {FIRST, REJECTED}, {REJECTED}), Dispatch(CHILD, Some(REJECTED), true, false),
                  Early(3, [Dispatching(CHILD, None, true, true)], 1, {FIRST, REJECTED}, {REJECTED}))
  {
    hide Find;
    var s := Early(2, [], 1, {FIRST, REJECTED}, {REJECTED});
    OnlyFirstIsFound(s, CHILD);
    var t := BeginDispatch(s, CHILD, Some(REJECTED), true, false);
    assert t.registrations == map[0 := Registration(3, false)];
    assert t.live == {FIRST, REJECTED} && t.tagged == {REJECTED};
  }

  lemma SecondCloses()
    ensures Takes(Early(1, [], 1, {FIRST, REJECTED}, {REJECTED}), Dispatch(REJECTED, None, true, false),
                  Early(2, [Dispatching(REJECTED, None, true, true)], 1, {FIRST}, {}))
  {
    hide Find;
    var s := Early(1, [], 1, {FIRST, REJECTED}, {REJECTED});
    OnlyFirstIsFound(s, REJECTED);
    var t := BeginDispatch(s, REJECTED, None, true, false);
    assert t.registrations == map[0 := Registration(2, false)];
    assert t.live == {FIRST} && t.tagged == {};
  }

  lemma LastReturns()
    ensures Takes(Early(2, [Dispatching(REJECTED, None, true, true)], 1, {FIRST}, {}), DispatchReturns,
                  Early(2, [], 1, {FIRST}, {}).(registrations := map[], freed := [0]))
  {
    var s := Early(2, [Dispatching(REJECTED, None, true, true)], 1, {FIRST}, {});
    assert Pop(s).stack == [];
    var t := ReleaseRegistration(Pop(s), 0);
    assert t.registrations == map[0 := Registration(1, false)];
    assert ReleaseRegistration(t, 0).registrations == map[];
  }

  lemma RunTakes(actions: seq<Action>, k: nat, s: State, t: State)
    requires k < |actions| && Run(actions[..k]) == s && Takes(s, actions[k], t)
    ensures Run(actions[..k + 1]) == t
  {
    assert actions[..k + 1][..k] == actions[..k];
  }

  lemma EarlyRun()
    ensures Run(TOO_EARLY) == Early(2, [], 1, {FIRST}, {}).(registrations := map[], freed := [0])
  {
    hide Step, Enabled, Safe, Takes, Early, Run;
    var open := Opening(0);
    var r, c := Dispatching(REJECTED, None, false, false), Dispatching(CHILD, None, true, true);
    var both, tag := {FIRST, REJECTED}, {REJECTED};
    OpenTakes();
    FirstGetsSlot();
    RunTakes(TOO_EARLY, 1, OPENED, Early(3, [open, Dispatching(FIRST, Some(1), false, false)], 2, {FIRST}, {}));
    FirstReturns();
    RunTakes(TOO_EARLY, 2, Early(3, [open, Dispatching(FIRST, Some(1), false, false)], 2, {FIRST}, {}),
             Early(2, [open], 1, {FIRST}, {}));
    SecondIsRejected();
    RunTakes(TOO_EARLY, 3, Early(2, [open], 1, {FIRST}, {}), Early(4, [open, r], 1, both, tag));
    RejectionReturns(4, [open], r, both, tag);
    assert [open] + [r] == [open, r];
    RunTakes(TOO_EARLY, 4, Early(4, [open, r], 1, both, tag), Early(3, [open], 1, both, tag));
    OpenEnds();
    RunTakes(TOO_EARLY, 5, Early(3, [open], 1, both, tag), Early(2, [], 1, both, tag));
    ChildCloses();
    RunTakes(TOO_EARLY, 6, Early(2, [], 1, both, tag), Early(3, [c], 1, both, tag));
    RejectionReturns(3, [], c, both, tag);
    assert [] + [c] == [c];
    RunTakes(TOO_EARLY, 7, Early(3, [c], 1, both, tag), Early(1, [], 1, both, tag));
    SecondCloses();
    RunTakes(TOO_EARLY, 8, Early(1, [], 1, both, tag),
             Early(2, [Dispatching(REJECTED, None, true, true)], 1, {FIRST}, {}));
    LastReturns();
    RunTakes(TOO_EARLY, 9, Early(2, [Dispatching(REJECTED, None, true, true)], 1, {FIRST}, {}),
             Early(2, [], 1, {FIRST}, {}).(registrations := map[], freed := [0]));
    assert TOO_EARLY[..10] == TOO_EARLY;
  }

  lemma OpenTakes()
    ensures Run(TOO_EARLY[..1]) == OPENED
  {
    assert TOO_EARLY[..1][..0] == [];
  }

  /** The registration is freed under the slot of the first connection, whose next event reaches it. */
  lemma InheritedTagFreesEarly(closing: bool)
    ensures var s := Run(TOO_EARLY);
            && s.freed == [0] && 0 !in s.registrations && 1 in s.slots && s.slots[1].key == FIRST
            && Enabled(s, Dispatch(FIRST, None, closing, false)) && !Safe(s, Dispatch(FIRST, None, closing, false))
  {
    hide Run;
    EarlyRun();
  }
}
