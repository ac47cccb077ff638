/** Lifetimes of registrations and slots over every run of Connections. */
module ConnectionProofs {
  import opened Common
  import opened Connections

  /** A run is any list of actions; one that is not possible in its state is skipped. */
  function Apply(s: State, a: Action): State {
    if Enabled(s, a) && Safe(s, a) then Step(s, a) else s
  }

  function Run(actions: seq<Action>): State {
    if actions == [] then INITIAL else Apply(Run(actions[..|actions| - 1]), actions[|actions| - 1])
  }

  // ----- what the counts count -----

  /** References a frame holds on registration `r`: the open call, a running dispatch, and the final
      close of a rejected connection. */
  function Held(f: Frame, r: nat): nat {
    match f
    case Opening(q) => if q == r then 1 else 0
    case Dispatching(key, _, _, releases) => if key.registration != r then 0 else if releases then 2 else 1
  }

  function HeldBy(stack: seq<Frame>, r: nat): nat {
    if stack == [] then 0 else HeldBy(stack[..|stack| - 1], r) + Held(stack[|stack| - 1], r)
  }

  function Pinned(f: Frame, x: nat): nat { if f.Dispatching? && f.slot == Some(x) then 1 else 0 }

  function PinnedBy(stack: seq<Frame>, x: nat): nat {
    if stack == [] then 0 else PinnedBy(stack[..|stack| - 1], x) + Pinned(stack[|stack| - 1], x)
  }

  function SlotsOf(slots: map<nat, Slot>, r: nat): set<nat> {
    set x | x in slots && slots[x].key.registration == r
  }

  function TagsOf(tagged: set<Key>, r: nat): set<Key> {
    set key | key in tagged && key.registration == r
  }

  /** A registration: the frames above, its live slots, its rejected connections not yet closed. */
  function RegistrationOwed(s: State, r: nat): nat {
    HeldBy(s.stack, r) + |SlotsOf(s.slots, r)| + |TagsOf(s.tagged, r)|
  }

  /** A slot: its place in the list and the running dispatches. */
  function SlotOwed(s: State, x: nat): nat {
    (if x in s.connections then 1 else 0) + PinnedBy(s.stack, x)
  }

  ghost predicate FrameSound(s: State, f: Frame) {
    match f
    case Opening(r) => r in s.registrations
    case Dispatching(key, slot, closing, releases) =>
      && key.registration in s.registrations
      && (slot.Some? ==> slot.value in s.slots && s.slots[slot.value].key == key)
      && (releases ==> closing && slot.None?)
      && (closing ==> key !in s.live)
  }

  ghost predicate ClosingIn(stack: seq<Frame>, x: nat) {
    exists k :: 0 <= k < |stack| && stack[k].Dispatching? && stack[k].closing && stack[k].slot == Some(x)
  }

  ghost predicate Linked(s: State, key: Key) {
    exists x :: x in s.connections && x in s.slots && s.slots[x].key == key
  }

  /** The list holds the slots that are not closed, one per connection, each of a connection that is
      live or being closed right now. */
  ghost predicate ListSound(s: State) {
    && Distinct(s.connections)
    && (forall x :: x in s.connections <==> x in s.slots && !s.slots[x].closed)
    && (forall x, y :: x in s.connections && y in s.connections && x != y ==> s.slots[x].key != s.slots[y].key)
    && (forall x :: x in s.connections ==> s.slots[x].key in s.live || ClosingIn(s.stack, x))
  }

  /** Every live connection has a linked slot or the failure tag, and not both. */
  ghost predicate LiveSound(s: State) {
    && (forall key :: key in s.live ==> key in s.tagged || Linked(s, key))
    && (forall key :: key in s.tagged ==> key in s.live && !Linked(s, key) && key.registration in s.registrations)
    && (forall x :: x in s.slots ==> s.slots[x].key.registration in s.registrations)
  }

  ghost predicate Accounted(s: State) {
    && Distinct(s.freed)
    && (forall id :: id in s.registrations || id in s.slots || id in s.freed <==> 0 <= id < s.unused)
    && (forall id :: !(id in s.registrations && id in s.slots))
    && (forall id :: id in s.freed ==> id !in s.registrations && id !in s.slots)
  }

  ghost predicate FramesSound(s: State) { forall k :: 0 <= k < |s.stack| ==> FrameSound(s, s.stack[k]) }

  ghost predicate Positive(s: State) {
    && (forall r :: r in s.registrations ==> s.registrations[r].references > 0)
    && (forall x :: x in s.slots ==> s.slots[x].references > 0)
  }

  ghost predicate Shaped(s: State) {
    FramesSound(s) && ListSound(s) && LiveSound(s) && Accounted(s) && Positive(s)
  }

  /** The counts, with `ex` references of slot `x` and `er` of registration `r` about to be dropped. */
  ghost predicate Balanced(s: State, x: nat, ex: nat, r: nat, er: nat) {
    && (forall y :: y in s.slots ==> s.slots[y].references == SlotOwed(s, y) + if y == x then ex else 0)
    && (forall q :: q in s.registrations ==>
          s.registrations[q].references == RegistrationOwed(s, q) + if q == r then er else 0)
  }

  ghost predicate Inv(s: State) { Shaped(s) && Balanced(s, 0, 0, 0, 0) }

  // ----- counting -----

  lemma HeldSnoc(stack: seq<Frame>, f: Frame, r: nat)
    ensures HeldBy(stack + [f], r) == HeldBy(stack, r) + Held(f, r)
    ensures PinnedBy(stack + [f], r) == PinnedBy(stack, r) + Pinned(f, r)
  {
    assert (stack + [f])[..|stack|] == stack;
  }

  lemma {:induction false} HeldByNone(stack: seq<Frame>, r: nat, k: nat)
    requires k < |stack|
    ensures HeldBy(stack, r) >= Held(stack[k], r) && PinnedBy(stack, r) >= Pinned(stack[k], r)
    decreases |stack|
  {
    if k < |stack| - 1 {
      HeldByNone(stack[..|stack| - 1], r, k);
    }
  }

  lemma {:induction false} FindFacts(slots: map<nat, Slot>, xs: seq<nat>, key: Key)
    ensures var e := Find(slots, xs, key);
            && (e.Some? ==> e.value in xs && e.value in slots && slots[e.value].key == key)
            && (e.None? ==> forall x :: x in xs && x in slots ==> slots[x].key != key)
    decreases |xs|
  {
    if xs != [] {
      FindFacts(slots, xs[1..], key);
      assert forall y :: y in xs <==> y == xs[0] || y in xs[1..];
    }
  }

  lemma Basics(s: State)
    requires Shaped(s)
    ensures forall x :: x in s.slots ==> s.slots[x].references > 0 && s.slots[x].key.registration in s.registrations
    ensures forall r :: r in s.registrations ==> s.registrations[r].references > 0
    ensures forall x :: x in s.connections <==> x in s.slots && !s.slots[x].closed
    ensures Distinct(s.connections)
  {
  }

  // ----- dropping a reference on a registration -----

  /** A registration that owes nothing is named by no frame, slot or tag. */
  lemma Unnamed(s: State, r: nat)
    requires RegistrationOwed(s, r) == 0
    ensures forall k :: 0 <= k < |s.stack| ==> Held(s.stack[k], r) == 0
    ensures forall x :: x in s.slots ==> s.slots[x].key.registration != r
    ensures forall key :: key in s.tagged ==> key.registration != r
  {
    forall k | 0 <= k < |s.stack|
      ensures Held(s.stack[k], r) == 0
    {
      HeldByNone(s.stack, r, k);
    }
    forall x | x in s.slots
      ensures s.slots[x].key.registration != r
    {
      assert x !in SlotsOf(s.slots, r);
    }
    forall key | key in s.tagged
      ensures key.registration != r
    {
      assert key !in TagsOf(s.tagged, r);
    }
  }

  /** One reference fewer. */
  function Fewer(e: Registration): Registration
    requires e.references > 0
  {
    e.(references := e.references - 1)
  }

  lemma DropRegistration(s: State, x: nat, ex: nat, r: nat, er: nat)
    requires Shaped(s) && Balanced(s, x, ex, r, er) && er > 0
    requires r in s.registrations && s.registrations[r].references > 1
    ensures var t := ReleaseRegistration(s, r); Shaped(t) && Balanced(t, x, ex, r, er - 1)
  {
    var t := ReleaseRegistration(s, r);
    forall k | 0 <= k < |t.stack|
      ensures FrameSound(t, t.stack[k])
    {
      assert FrameSound(s, s.stack[k]);
    }
    assert forall key :: Linked(s, key) == Linked(t, key);
  }

  lemma FreeRegistrationShapes(s: State, r: nat)
    requires Shaped(s) && r in s.registrations && s.registrations[r].references == 1 && RegistrationOwed(s, r) == 0
    ensures Shaped(ReleaseRegistration(s, r))
  {
    hide FramesSound, ListSound, LiveSound, Accounted, RegistrationOwed;
    var t := ReleaseRegistration(s, r);
    Unnamed(s, r);
    FreeRegistrationFrames(s, r, t);
    FreeRegistrationRest(s, r, t);
    FreeRegistrationAccounts(s, r, t);
  }

  lemma FreeRegistrationFrames(s: State, r: nat, t: State)
    requires FramesSound(s) && t == s.(registrations := s.registrations - {r}, freed := s.freed + [r])
    requires forall k :: 0 <= k < |s.stack| ==> Held(s.stack[k], r) == 0
    ensures FramesSound(t)
  {
    forall k | 0 <= k < |t.stack|
      ensures FrameSound(t, t.stack[k])
    {
      assert FrameSound(s, s.stack[k]) && Held(s.stack[k], r) == 0;
    }
  }

  lemma FreeRegistrationRest(s: State, r: nat, t: State)
    requires ListSound(s) && LiveSound(s) && t == s.(registrations := s.registrations - {r}, freed := s.freed + [r])
    requires forall x :: x in s.slots ==> s.slots[x].key.registration != r
    requires forall key :: key in s.tagged ==> key.registration != r
    ensures ListSound(t) && LiveSound(t)
  {
    assert forall key :: Linked(s, key) == Linked(t, key);
    hide ClosingIn;
  }

  lemma FreeRegistrationAccounts(s: State, r: nat, t: State)
    requires Accounted(s) && r in s.registrations
    requires t == s.(registrations := s.registrations - {r}, freed := s.freed + [r])
    ensures Accounted(t)
  {
    assert forall y :: y in t.freed <==> y in s.freed || y == r;
  }

  lemma FreeRegistration(s: State, x: nat, ex: nat, r: nat)
    requires Shaped(s) && Balanced(s, x, ex, r, 1) && r in s.registrations && s.registrations[r].references == 1
    ensures var t := ReleaseRegistration(s, r); Shaped(t) && Balanced(t, x, ex, 0, 0)
  {
    hide Shaped;
    FreeRegistrationShapes(s, r);
  }

  lemma ReleaseRegistrationKeeps(s: State, x: nat, ex: nat, r: nat, er: nat)
    requires Shaped(s) && Balanced(s, x, ex, r, er) && er > 0 && r in s.registrations
    ensures CanReleaseRegistration(s, r, er)
    ensures var t := ReleaseRegistration(s, r); Shaped(t) && Balanced(t, x, ex, r, er - 1)
    ensures er > 1 ==> r in ReleaseRegistration(s, r).registrations
  {
    hide Shaped;
    if s.registrations[r].references > 1 {
      DropRegistration(s, x, ex, r, er);
    } else {
      FreeRegistration(s, x, ex, r);
    }
  }

  // ----- dropping a reference on a slot -----

  /** Slots may change their counts without disturbing anything else. */
  lemma RecountShapes(s: State, t: State)
    requires Shaped(s) && t == s.(slots := t.slots) && t.slots.Keys == s.slots.Keys
    requires forall y :: y in s.slots ==> t.slots[y] == s.slots[y].(references := t.slots[y].references)
    requires forall y :: y in s.slots ==> t.slots[y].references > 0
    ensures Shaped(t)
  {
    hide FramesSound, ListSound, LiveSound, Accounted;
    assert SameBut(s, t);
    RecountFrames(s, t);
    RecountList(s, t);
    RecountLive(s, t);
    AddFrameAccounts(s, t);
  }

  lemma RecountFrames(s: State, t: State)
    requires FramesSound(s) && SameBut(s, t) && t.stack == s.stack && t.live == s.live
    ensures FramesSound(t)
  {
    SameLinked(s, t);
    forall k | 0 <= k < |t.stack|
      ensures FrameSound(t, t.stack[k])
    {
      assert FrameSound(s, s.stack[k]);
    }
  }

  lemma RecountList(s: State, t: State)
    requires ListSound(s) && SameBut(s, t) && t.stack == s.stack && t.live == s.live
    ensures ListSound(t)
  {
    SameLinked(s, t);
    hide ClosingIn;
  }

  lemma RecountLive(s: State, t: State)
    requires LiveSound(s) && SameBut(s, t) && t.live == s.live && t.tagged == s.tagged
    ensures LiveSound(t)
  {
    SameLinked(s, t);
    hide Linked;
  }

  lemma SameSlotsOf(s: State, t: State, q: nat)
    requires t.slots.Keys == s.slots.Keys
    requires forall y :: y in s.slots ==> t.slots[y].key == s.slots[y].key
    ensures SlotsOf(t.slots, q) == SlotsOf(s.slots, q)
  {
  }

  lemma DropSlot(s: State, x: nat, ex: nat, r: nat, er: nat)
    requires Shaped(s) && Balanced(s, x, ex, r, er) && ex > 0 && x in s.slots && s.slots[x].references > 1
    ensures var t := s.(slots := s.slots[x := s.slots[x].(references := s.slots[x].references - 1)]);
            Shaped(t) && Balanced(t, x, ex - 1, r, er)
  {
    hide Shaped, SlotsOf, TagsOf, HeldBy, PinnedBy;
    Basics(s);
    var t := s.(slots := s.slots[x := s.slots[x].(references := s.slots[x].references - 1)]);
    assert t.slots.Keys == s.slots.Keys;
    RecountShapes(s, t);
    forall q | q in t.registrations
      ensures t.registrations[q].references == RegistrationOwed(t, q) + if q == r then er else 0
    {
      SameSlotsOf(s, t, q);
      assert s.registrations[q].references == RegistrationOwed(s, q) + if q == r then er else 0;
    }
  }

  lemma FreeSlotShapes(s: State, x: nat, t: State)
    requires Shaped(s) && x in s.slots && SlotOwed(s, x) == 0
    requires s.slots[x].key.registration in s.registrations
    requires s.registrations[s.slots[x].key.registration].references > 1
    requires var r := s.slots[x].key.registration;
             t == s.(registrations := s.registrations[r := Fewer(s.registrations[r])],
                     slots := s.slots - {x}, freed := s.freed + [x])
    ensures Shaped(t)
  {
    hide FramesSound, ListSound, LiveSound, Accounted, PinnedBy;
    assert t.registrations.Keys == s.registrations.Keys;
    FreeSlotFrames(s, x, t);
    FreeSlotList(s, x, t);
    FreeSlotLive(s, x, t);
    FreeSlotAccounts(s, x, t);
  }

  lemma FreeSlotFrames(s: State, x: nat, t: State)
    requires FramesSound(s) && PinnedBy(s.stack, x) == 0 && t.slots == s.slots - {x}
    requires t.stack == s.stack && t.live == s.live && t.registrations.Keys == s.registrations.Keys
    ensures FramesSound(t)
  {
    assert forall q :: q in s.registrations <==> q in t.registrations;
    forall k | 0 <= k < |t.stack|
      ensures FrameSound(t, t.stack[k])
    {
      HeldByNone(s.stack, x, k);
      assert FrameSound(s, s.stack[k]);
    }
  }

  lemma FreeSlotList(s: State, x: nat, t: State)
    requires ListSound(s) && x !in s.connections && x in s.slots && t.slots == s.slots - {x}
    requires t.stack == s.stack && t.live == s.live && t.connections == s.connections
    ensures ListSound(t)
  {
    hide ClosingIn;
  }

  lemma FreeSlotLive(s: State, x: nat, t: State)
    requires LiveSound(s) && x !in s.connections && t.slots == s.slots - {x} && t.connections == s.connections
    requires t.live == s.live && t.tagged == s.tagged && t.registrations.Keys == s.registrations.Keys
    ensures LiveSound(t)
  {
    assert forall q :: q in s.registrations <==> q in t.registrations;
    assert forall key :: Linked(s, key) == Linked(t, key);
  }

  lemma FreeSlotAccounts(s: State, x: nat, t: State)
    requires Accounted(s) && x in s.slots && t.slots == s.slots - {x} && t.freed == s.freed + [x]
    requires t.registrations.Keys == s.registrations.Keys && t.unused == s.unused
    ensures Accounted(t)
  {
    assert forall q :: q in s.registrations <==> q in t.registrations;
    assert forall y :: y in t.freed <==> y in s.freed || y == x;
  }

  lemma FreeSlotBalances(s: State, x: nat, r: nat, er: nat, t: State)
    requires Balanced(s, x, 1, r, er) && x in s.slots && s.slots[x].key.registration == r && r in s.registrations
    requires s.registrations[r].references > 1
    requires t == s.(registrations := s.registrations[r := Fewer(s.registrations[r])],
                     slots := s.slots - {x}, freed := s.freed + [x])
    ensures Balanced(t, 0, 0, r, er)
  {
    forall q | q in t.registrations
      ensures t.registrations[q].references == RegistrationOwed(t, q) + if q == r then er else 0
    {
      assert SlotsOf(t.slots, q) == SlotsOf(s.slots, q) - {x};
      assert s.registrations[q].references == RegistrationOwed(s, q) + if q == r then er else 0;
      if q == r {
        assert x in SlotsOf(s.slots, q);
      } else {
        assert x !in SlotsOf(s.slots, q);
      }
    }
    forall y | y in t.slots
      ensures t.slots[y].references == SlotOwed(t, y)
    {
      assert s.slots[y].references == SlotOwed(s, y);
    }
  }

  /** A slot with one reference due, under a registration with one more due: both can be dropped. */
  lemma FreeSlot(s: State, x: nat, r: nat, er: nat)
    requires Shaped(s) && Balanced(s, x, 1, r, er) && x in s.slots && s.slots[x].references == 1
    requires er > 0 && s.slots[x].key.registration == r
    ensures CanReleaseSlot(s, x)
    ensures var t := ReleaseSlot(s, x); Shaped(t) && Balanced(t, 0, 0, r, er) && r in t.registrations
  {
    hide Shaped, TagsOf, HeldBy, PinnedBy;
    Basics(s);
    assert x in SlotsOf(s.slots, r);
    assert s.registrations[r].references == RegistrationOwed(s, r) + er > 1;
    var t := ReleaseSlot(s, x);
    FreeSlotShapes(s, x, t);
    FreeSlotBalances(s, x, r, er, t);
  }

  lemma ReleaseSlotKeeps(s: State, x: nat, ex: nat, r: nat, er: nat)
    requires Shaped(s) && Balanced(s, x, ex, r, er) && ex > 0 && x in s.slots
    requires er > 0 && s.slots[x].key.registration == r
    ensures CanReleaseSlot(s, x) && s.slots[x].references >= ex
    ensures var t := ReleaseSlot(s, x);
            && Shaped(t) && Balanced(t, x, ex - 1, r, er) && r in t.registrations
            && (ex > 1 ==> x in t.slots && t.slots[x].key == s.slots[x].key)
  {
    hide Shaped, SlotOwed, RegistrationOwed;
    Basics(s);
    assert s.slots[x].references == SlotOwed(s, x) + ex;
    if s.slots[x].references > 1 {
      DropSlot(s, x, ex, r, er);
    } else {
      FreeSlot(s, x, r, er);
    }
  }

  /** Unlinking the slot of a connection that is no longer live. */
  lemma UnlinkKeeps(s: State, x: nat)
    requires Inv(s) && x in s.connections && s.slots[x].key !in s.live
    ensures Shaped(Unlink(s, x)) && Balanced(Unlink(s, x), x, 1, 0, 0)
  {
    hide Shaped, SlotsOf, TagsOf, HeldBy, PinnedBy;
    Basics(s);
    var t := Unlink(s, x);
    UnlinkShapes(s, x);
    WithoutFacts(s.connections, x);
    forall q | q in t.registrations
      ensures t.registrations[q].references == RegistrationOwed(t, q)
    {
      SameSlotsOf(s, t, q);
      assert s.registrations[q].references == RegistrationOwed(s, q);
    }
    forall y | y in t.slots
      ensures t.slots[y].references == SlotOwed(t, y) + if y == x then 1 else 0
    {
      assert s.slots[y].references == SlotOwed(s, y);
    }
  }

  lemma UnlinkShapes(s: State, x: nat)
    requires Shaped(s) && x in s.connections && s.slots[x].key !in s.live
    ensures Shaped(Unlink(s, x))
  {
    hide FramesSound, ListSound, LiveSound, Accounted, Without;
    Basics(s);
    var t := Unlink(s, x);
    WithoutFacts(s.connections, x);
    assert t.slots.Keys == s.slots.Keys;
    UnlinkFrames(s, x, t);
    UnlinkList(s, x, t);
    UnlinkLive(s, x, t);
    UnlinkAccounts(s, t);
  }

  lemma UnlinkFrames(s: State, x: nat, t: State)
    requires FramesSound(s) && x in s.slots && t.slots == s.slots[x := s.slots[x].(closed := true)]
    requires t.stack == s.stack && t.live == s.live && t.registrations == s.registrations
    ensures FramesSound(t)
  {
    forall k | 0 <= k < |t.stack|
      ensures FrameSound(t, t.stack[k])
    {
      assert FrameSound(s, s.stack[k]);
    }
  }

  lemma UnlinkList(s: State, x: nat, t: State)
    requires ListSound(s) && x in s.slots && t.slots == s.slots[x := s.slots[x].(closed := true)]
    requires t.stack == s.stack && t.live == s.live && Distinct(t.connections)
    requires forall y :: y in t.connections <==> y in s.connections && y != x
    ensures ListSound(t)
  {
    hide ClosingIn;
  }

  lemma UnlinkLive(s: State, x: nat, t: State)
    requires LiveSound(s) && x in s.slots && t.slots == s.slots[x := s.slots[x].(closed := true)]
    requires s.slots[x].key !in s.live && t.live == s.live && t.tagged == s.tagged && t.registrations == s.registrations
    requires forall y :: y in t.connections <==> y in s.connections && y != x
    ensures LiveSound(t)
  {
    forall key | key in s.live && Linked(s, key)
      ensures Linked(t, key)
    {
      var y :| y in s.connections && y in s.slots && s.slots[y].key == key;
      assert y in t.connections && t.slots[y].key == key;
    }
    forall key | Linked(t, key)
      ensures Linked(s, key)
    {
      var y :| y in t.connections && y in t.slots && t.slots[y].key == key;
      assert y in s.connections && s.slots[y].key == key;
    }
    hide Linked;
  }

  lemma UnlinkAccounts(s: State, t: State)
    requires Accounted(s) && t.slots.Keys == s.slots.Keys && t.registrations == s.registrations
    requires t.freed == s.freed && t.unused == s.unused
    ensures Accounted(t)
  {
    assert forall y :: y in t.slots <==> y in s.slots;
  }

  /** Taking the top frame away leaves its references over. */
  lemma PopKeeps(s: State, x: nat, ex: nat, r: nat)
    requires Shaped(s) && Balanced(s, x, ex, 0, 0) && s.stack != []
    requires Top(s).Dispatching? ==> r == Top(s).key.registration && (Top(s).slot.Some? ==> Top(s).slot.value == x)
    requires Top(s).Opening? ==> r == Top(s).registration
    requires Top(s).Dispatching? && Top(s).closing && Top(s).slot.Some? ==> x !in s.connections
    ensures Shaped(Pop(s)) && Balanced(Pop(s), x, ex + Pinned(Top(s), x), r, Held(Top(s), r)) && r in s.registrations
  {
    hide Shaped, FrameSound, SlotsOf, TagsOf;
    TopSound(s, r);
    var t := Pop(s);
    assert s.stack == t.stack + [Top(s)];
    PopShapes(s, x);
    forall y | y in t.slots
      ensures t.slots[y].references == SlotOwed(t, y) + if y == x then ex + Pinned(Top(s), x) else 0
    {
      HeldSnoc(t.stack, Top(s), y);
    }
    forall q | q in t.registrations
      ensures t.registrations[q].references == RegistrationOwed(t, q) + if q == r then Held(Top(s), r) else 0
    {
      HeldSnoc(t.stack, Top(s), q);
    }
  }

  lemma TopSound(s: State, r: nat)
    requires Shaped(s) && s.stack != []
    requires Top(s).Dispatching? ==> r == Top(s).key.registration
    requires Top(s).Opening? ==> r == Top(s).registration
    ensures r in s.registrations
  {
    assert FrameSound(s, Top(s));
  }

  lemma PopShapes(s: State, x: nat)
    requires Shaped(s) && s.stack != []
    requires Top(s).Dispatching? && Top(s).slot.Some? && Top(s).closing ==>
               Top(s).slot.value == x && x !in s.connections
    ensures Shaped(Pop(s))
  {
    var t := Pop(s);
    forall k | 0 <= k < |t.stack|
      ensures FrameSound(t, t.stack[k])
    {
      assert FrameSound(s, s.stack[k]);
    }
    forall y | y in t.connections
      ensures t.slots[y].key in t.live || ClosingIn(t.stack, y)
    {
      if ClosingIn(s.stack, y) {
        var k :| 0 <= k < |s.stack| && s.stack[k].Dispatching? && s.stack[k].closing && s.stack[k].slot == Some(y);
        assert t.stack[k] == s.stack[k];
      }
    }
    hide FrameSound;
    assert forall key :: Linked(s, key) == Linked(t, key);
    assert Accounted(t);
  }

  // ----- each action -----

  lemma {:induction false} UnusedHeld(s: State, stack: seq<Frame>)
    requires Shaped(s) && stack <= s.stack
    ensures HeldBy(stack, s.unused) == 0 && PinnedBy(stack, s.unused) == 0
    decreases |stack|
  {
    if stack != [] {
      UnusedHeld(s, stack[..|stack| - 1]);
      assert FrameSound(s, s.stack[|stack| - 1]);
    }
  }

  /** A number not given out yet is named nowhere. */
  lemma UnusedOwed(s: State)
    requires Shaped(s)
    ensures RegistrationOwed(s, s.unused) == 0 && SlotOwed(s, s.unused) == 0
    ensures s.unused !in s.registrations && s.unused !in s.slots
  {
    UnusedHeld(s, s.stack);
    assert SlotsOf(s.slots, s.unused) == {};
    assert TagsOf(s.tagged, s.unused) == {};
  }

  lemma OpenShapes(s: State)
    requires Shaped(s)
    ensures Shaped(BeginOpen(s))
  {
    var t := BeginOpen(s);
    forall k | 0 <= k < |t.stack|
      ensures FrameSound(t, t.stack[k])
    {
      assert k < |s.stack| ==> FrameSound(s, s.stack[k]);
    }
    ClosingSnoc(s.stack, Opening(s.unused));
    hide FrameSound, ClosingIn;
    assert forall key :: Linked(s, key) == Linked(t, key);
    assert Accounted(t);
  }

  lemma ClosingSnoc(stack: seq<Frame>, f: Frame)
    ensures forall x: nat :: ClosingIn(stack, x) ==> ClosingIn(stack + [f], x)
    ensures forall x: nat :: f.Dispatching? && f.closing && f.slot == Some(x) ==> ClosingIn(stack + [f], x)
  {
    forall x: nat | ClosingIn(stack, x)
      ensures ClosingIn(stack + [f], x)
    {
      var k :| 0 <= k < |stack| && stack[k].Dispatching? && stack[k].closing && stack[k].slot == Some(x);
      assert (stack + [f])[k] == stack[k];
    }
    assert (stack + [f])[|stack|] == f;
  }

  lemma OpenKeeps(s: State)
    requires Inv(s)
    ensures Inv(BeginOpen(s))
  {
    hide Shaped, SlotsOf, TagsOf;
    OpenShapes(s);
    UnusedOwed(s);
    var t := BeginOpen(s);
    forall q | q in t.registrations
      ensures t.registrations[q].references == RegistrationOwed(t, q)
    {
      HeldSnoc(s.stack, Opening(s.unused), q);
    }
    forall y | y in t.slots
      ensures t.slots[y].references == SlotOwed(t, y)
    {
      HeldSnoc(s.stack, Opening(s.unused), y);
    }
  }

  lemma OpenReturnKeeps(s: State)
    requires Inv(s) && Enabled(s, OpenReturns)
    ensures Safe(s, OpenReturns) && Inv(ReleaseRegistration(Pop(s), Top(s).registration))
  {
    hide Shaped, SlotOwed, RegistrationOwed;
    var r := Top(s).registration;
    PopKeeps(s, s.unused, 0, r);
    ReleaseRegistrationKeeps(Pop(s), s.unused, 0, r, 1);
  }

  lemma ReturnWithoutSlot(s: State)
    requires Inv(s) && Enabled(s, DispatchReturns) && Top(s).slot.None?
    ensures Safe(s, DispatchReturns) && Inv(FinishDispatch(s))
  {
    hide Shaped, SlotOwed, RegistrationOwed;
    var f, r := Top(s), Top(s).key.registration;
    PopKeeps(s, s.unused, 0, r);
    var t := Pop(s);
    if f.releases {
      ReleaseRegistrationKeeps(t, s.unused, 0, r, 2);
      ReleaseRegistrationKeeps(ReleaseRegistration(t, r), s.unused, 0, r, 1);
    } else {
      ReleaseRegistrationKeeps(t, s.unused, 0, r, 1);
    }
  }

  /** The registration of a slot that is still there, with a frame's reference due, has two left. */
  lemma TwoLeft(s: State, x: nat, ex: nat, r: nat)
    requires Balanced(s, x, ex, r, 1) && x in s.slots && s.slots[x].key.registration == r && r in s.registrations
    ensures CanReleaseRegistration(s, r, 2)
  {
    assert x in SlotsOf(s.slots, r);
    assert s.registrations[r].references == RegistrationOwed(s, r) + 1;
  }

  /** The two releases that end a dispatch on a slot. */
  lemma ReturnReleases(t: State, x: nat, ex: nat, r: nat)
    requires Shaped(t) && Balanced(t, x, ex, r, 1) && x in t.slots && t.slots[x].key.registration == r
    requires ex == 1 || ex == 2
    ensures CanReleaseSlot(t, x) && CanReleaseRegistration(t, r, 2) && t.slots[x].references >= ex
    ensures var u := if ex == 2 then ReleaseSlot(t, x) else t;
            && CanReleaseSlot(u, x)
            && var v := ReleaseSlot(u, x);
               CanReleaseRegistration(v, r, 1) && Inv(ReleaseRegistration(v, r))
  {
    hide Shaped, SlotOwed, RegistrationOwed;
    Basics(t);
    TwoLeft(t, x, ex, r);
    ReleaseSlotKeeps(t, x, ex, r, 1);
    var u := if ex == 2 then ReleaseSlot(t, x) else t;
    ReleaseSlotKeeps(u, x, 1, r, 1);
    ReleaseRegistrationKeeps(ReleaseSlot(u, x), x, 0, r, 1);
  }

  lemma DispatchTop(s: State)
    requires Shaped(s) && s.stack != [] && Top(s).Dispatching?
    ensures Top(s).slot.Some? ==> Top(s).slot.value in s.slots && s.slots[Top(s).slot.value].key == Top(s).key
    ensures Top(s).slot.Some? ==> !Top(s).releases
    ensures Top(s).closing ==> Top(s).key !in s.live
  {
    assert FrameSound(s, Top(s));
  }

  lemma ReturnWithSlot(s: State)
    requires Inv(s) && Enabled(s, DispatchReturns) && Top(s).slot.Some?
    ensures Safe(s, DispatchReturns) && Inv(FinishDispatch(s))
  {
    hide Shaped, SlotOwed, RegistrationOwed, Without;
    Basics(s);
    DispatchTop(s);
    var f := Top(s);
    var x, r := f.slot.value, f.key.registration;
    if f.closing && !s.slots[x].closed {
      UnlinkKeeps(s, x);
      var u := Unlink(s, x);
      WithoutFacts(s.connections, x);
      PopKeeps(u, x, 1, r);
      assert Pop(u) == Unlink(Pop(s), x);
      ReturnReleases(Pop(u), x, 2, r);
    } else {
      PopKeeps(s, x, 0, r);
      ReturnReleases(Pop(s), x, 1, r);
    }
  }

  // ----- beginning a dispatch -----

  /** Where the native contract lets a dispatch happen, its registration is there; a connection without
      slot and tag is one that was not announced before and is not being closed. */
  lemma DispatchContext(s: State, key: Key, listener: Option<Key>)
    requires Shaped(s) && (key in s.live || (IsNew(s, key) && Announced(s, key, listener)))
    ensures key.registration in s.registrations
    ensures Linked(s, key) ==> key in s.live && key !in s.tagged
    ensures !Linked(s, key) && key !in s.tagged ==> IsNew(s, key)
  {
    LiveRegistered(s);
    if Linked(s, key) {
      NewUnlinked(s, key);
    }
    forall k | 0 <= k < |s.stack| && s.stack[k] == Opening(key.registration)
      ensures key.registration in s.registrations
    {
      assert FrameSound(s, s.stack[k]);
    }
  }

  lemma LiveRegistered(s: State)
    requires Shaped(s)
    ensures forall key :: key in s.live ==> key.registration in s.registrations
  {
    forall key | key in s.live
      ensures key.registration in s.registrations
    {
      if key !in s.tagged {
        var x :| x in s.connections && x in s.slots && s.slots[x].key == key;
      }
    }
  }

  /** A linked slot belongs to a connection that is live or has a closing dispatch running. */
  lemma NewUnlinked(s: State, key: Key)
    requires Shaped(s) && Linked(s, key)
    ensures key in s.live || !IsNew(s, key)
  {
    var x :| x in s.connections && x in s.slots && s.slots[x].key == key;
    if key !in s.live {
      var k :| 0 <= k < |s.stack| && s.stack[k].Dispatching? && s.stack[k].closing && s.stack[k].slot == Some(x);
      assert FrameSound(s, s.stack[k]);
    }
  }

  lemma SamePlaces(s: State, t: State, key: Key)
    requires t.slots == s.slots && t.connections == s.connections
    ensures Linked(t, key) == Linked(s, key)
  {
  }

  lemma FindLinked(s: State, key: Key)
    requires Shaped(s)
    ensures Find(s.slots, s.connections, key).Some? <==> Linked(s, key)
    ensures Find(s.slots, s.connections, key).Some? ==>
              var x := Find(s.slots, s.connections, key).value;
              x in s.connections && x in s.slots && s.slots[x].key == key
  {
    FindFacts(s.slots, s.connections, key);
  }

  /** Same slots but for their counts, same registrations but for theirs. */
  ghost predicate SameBut(s: State, t: State) {
    && t.connections == s.connections && t.freed == s.freed && t.unused == s.unused
    && t.slots.Keys == s.slots.Keys && t.registrations.Keys == s.registrations.Keys
    && (forall x :: x in s.slots ==> t.slots[x].key == s.slots[x].key && t.slots[x].closed == s.slots[x].closed)
  }

  lemma SameLinked(s: State, t: State)
    requires SameBut(s, t)
    ensures forall key :: Linked(s, key) == Linked(t, key)
    ensures forall id :: (id in t.slots <==> id in s.slots) && (id in t.registrations <==> id in s.registrations)
  {
    assert forall x :: x in s.slots <==> x in t.slots;
  }

  lemma AddFrameFrames(s: State, t: State, f: Frame)
    requires FramesSound(s) && SameBut(s, t) && t.stack == s.stack + [f] && FrameSound(t, f)
    requires forall k :: 0 <= k < |s.stack| && s.stack[k].Dispatching? && s.stack[k].closing ==>
               s.stack[k].key !in t.live
    ensures FramesSound(t)
  {
    SameLinked(s, t);
    forall k | 0 <= k < |t.stack|
      ensures FrameSound(t, t.stack[k])
    {
      assert k < |s.stack| ==> FrameSound(s, s.stack[k]);
    }
  }

  lemma AddFrameList(s: State, t: State, f: Frame)
    requires ListSound(s) && SameBut(s, t) && t.stack == s.stack + [f]
    requires forall x :: x in s.connections && x in s.slots && s.slots[x].key in s.live ==>
               s.slots[x].key in t.live || (f.Dispatching? && f.closing && f.slot == Some(x))
    ensures ListSound(t)
  {
    SameLinked(s, t);
    ClosingSnoc(s.stack, f);
    hide ClosingIn;
  }

  lemma AddFrameAccounts(s: State, t: State)
    requires Accounted(s) && SameBut(s, t)
    ensures Accounted(t)
  {
    SameLinked(s, t);
  }

  lemma EnterSlotShapes(s: State, key: Key, x: nat, closing: bool)
    requires Shaped(s) && key.registration in s.registrations && key in s.live
    requires x in s.connections && x in s.slots && s.slots[x].key == key
    ensures Shaped(EnterSlot(Announce(Retain(s, key.registration, 1), key, closing), key, x, closing))
  {
    hide FrameSound, ListSound, LiveSound, Accounted, Distinct;
    var t := EnterSlot(Announce(Retain(s, key.registration, 1), key, closing), key, x, closing);
    var f := Dispatching(key, Some(x), closing, false);
    assert t.slots.Keys == s.slots.Keys && t.registrations.Keys == s.registrations.Keys;
    assert SameBut(s, t);
    EnterFrames(s, t, f, x);
    AddFrameFrames(s, t, f);
    SlotListed(s, x);
    AddFrameList(s, t, f);
    AddFrameAccounts(s, t);
    EnterLive(s, t, x);
  }

  lemma SlotListed(s: State, x: nat)
    requires ListSound(s) && x in s.connections
    ensures forall y :: y in s.connections && y in s.slots && y != x ==> s.slots[y].key != s.slots[x].key
  {
  }

  lemma EnterFrames(s: State, t: State, f: Frame, x: nat)
    requires FramesSound(s) && SameBut(s, t) && x in s.slots && f.Dispatching? && f.slot == Some(x) && !f.releases
    requires s.slots[x].key == f.key && f.key.registration in s.registrations && f.key in s.live
    requires t.live == if f.closing then s.live - {f.key} else s.live + {f.key}
    ensures FrameSound(t, f)
    ensures forall k :: 0 <= k < |s.stack| && s.stack[k].Dispatching? && s.stack[k].closing ==>
              s.stack[k].key !in t.live
  {
    assert f.key.registration in t.registrations.Keys && x in t.slots.Keys;
    forall k | 0 <= k < |s.stack| && s.stack[k].Dispatching? && s.stack[k].closing
      ensures s.stack[k].key !in t.live
    {
      assert FrameSound(s, s.stack[k]);
    }
  }

  lemma EnterLive(s: State, t: State, x: nat)
    requires LiveSound(s) && SameBut(s, t) && t.tagged == s.tagged
    requires x in s.connections && x in s.slots
    requires t.live <= s.live && s.live - {s.slots[x].key} <= t.live
    ensures LiveSound(t)
  {
    SameLinked(s, t);
    assert Linked(s, s.slots[x].key);
    hide Linked;
  }

  lemma EnterSlotKeeps(s: State, key: Key, x: nat, closing: bool)
    requires Inv(s) && key.registration in s.registrations && key in s.live
    requires x in s.connections && x in s.slots && s.slots[x].key == key
    ensures Inv(EnterSlot(Announce(Retain(s, key.registration, 1), key, closing), key, x, closing))
  {
    hide Shaped, SlotsOf, TagsOf;
    EnterSlotShapes(s, key, x, closing);
    var t := EnterSlot(Announce(Retain(s, key.registration, 1), key, closing), key, x, closing);
    var f := Dispatching(key, Some(x), closing, false);
    forall q | q in t.registrations
      ensures t.registrations[q].references == RegistrationOwed(t, q)
    {
      HeldSnoc(s.stack, f, q);
      SameSlotsOf(s, t, q);
    }
    forall y | y in t.slots
      ensures t.slots[y].references == SlotOwed(t, y)
    {
      HeldSnoc(s.stack, f, y);
    }
  }

  function Linking(s: State, key: Key, closing: bool): State
    requires key.registration in s.registrations
  {
    var t := Announce(Retain(s, key.registration, 1), key, closing);
    EnterSlot(Link(t, key), key, t.unused, closing)
  }

  /** A new slot `u` for `key` at the head of the list. */
  ghost predicate Added(s: State, t: State, key: Key, u: nat) {
    && u == s.unused && t.unused == u + 1 && t.freed == s.freed
    && t.connections == [u] + s.connections && t.slots == s.slots[u := Slot(key, 2, false)]
    && t.registrations.Keys == s.registrations.Keys && t.tagged == s.tagged
  }

  lemma LinkFrames(s: State, t: State, f: Frame, u: nat)
    requires FramesSound(s) && f.Dispatching? && Added(s, t, f.key, u) && t.stack == s.stack + [f] && u !in s.slots
    requires f.slot == Some(u) && !f.releases && IsNew(s, f.key) && f.key.registration in s.registrations
    requires t.live == if f.closing then s.live - {f.key} else s.live + {f.key}
    ensures FramesSound(t)
  {
    assert forall q :: q in s.registrations <==> q in t.registrations;
    forall k | 0 <= k < |t.stack|
      ensures FrameSound(t, t.stack[k])
    {
      assert k < |s.stack| ==> FrameSound(s, s.stack[k]);
    }
  }

  lemma LinkList(s: State, t: State, f: Frame, u: nat)
    requires ListSound(s) && f.Dispatching? && Added(s, t, f.key, u) && t.stack == s.stack + [f] && u !in s.slots
    requires f.slot == Some(u) && !Linked(s, f.key) && f.key !in s.live
    requires t.live == if f.closing then s.live - {f.key} else s.live + {f.key}
    ensures ListSound(t)
  {
    ClosingSnoc(s.stack, f);
    hide ClosingIn;
    assert forall y :: y in t.connections <==> y == u || y in s.connections;
    assert forall y :: y in s.connections ==> s.slots[y].key != f.key;
  }

  lemma LinkLive(s: State, t: State, key: Key, u: nat)
    requires LiveSound(s) && Added(s, t, key, u) && u !in s.slots && key !in s.tagged
    requires key.registration in s.registrations
    requires forall x :: x in s.connections ==> x in s.slots
    requires key !in s.live && (t.live == s.live || t.live == s.live + {key})
    ensures LiveSound(t)
  {
    LinkedGrows(s, t, key, u);
    hide Linked;
    assert forall q :: q in s.registrations <==> q in t.registrations;
  }

  lemma LinkAccounts(s: State, t: State, key: Key, u: nat)
    requires Accounted(s) && Added(s, t, key, u)
    ensures Accounted(t)
  {
    assert forall q :: q in s.registrations <==> q in t.registrations;
  }

  lemma LinkShapes(s: State, key: Key, closing: bool)
    requires Shaped(s) && key.registration in s.registrations && IsNew(s, key) && !Linked(s, key) && key !in s.tagged
    ensures Shaped(Linking(s, key, closing))
  {
    hide FramesSound, ListSound, LiveSound, Accounted, Linked;
    Basics(s);
    UnusedOwed(s);
    var t := Linking(s, key, closing);
    var u := s.unused;
    var f := Dispatching(key, Some(u), closing, false);
    assert t.registrations.Keys == s.registrations.Keys;
    assert t.slots == s.slots[u := Slot(key, 2, false)];
    assert Added(s, t, key, u);
    LinkFrames(s, t, f, u);
    LinkList(s, t, f, u);
    LinkLive(s, t, key, u);
    LinkAccounts(s, t, key, u);
  }

  lemma LinkedGrows(s: State, t: State, key: Key, u: nat)
    requires u !in s.slots && t.connections == [u] + s.connections && t.slots == s.slots[u := Slot(key, 2, false)]
    requires forall x :: x in s.connections ==> x in s.slots
    ensures forall other :: Linked(t, other) <==> Linked(s, other) || other == key
  {
    assert forall y :: y in t.connections <==> y == u || y in s.connections;
    forall other
      ensures Linked(t, other) <==> Linked(s, other) || other == key
    {
      if Linked(s, other) {
        var x :| x in s.connections && x in s.slots && s.slots[x].key == other;
        assert x in t.connections && t.slots[x].key == other;
      }
      if Linked(t, other) && other != key {
        var x :| x in t.connections && x in t.slots && t.slots[x].key == other;
        assert x in s.connections && s.slots[x].key == other;
      }
      assert u in t.connections && t.slots[u].key == key;
    }
  }

  lemma OneMoreSlot(slots: map<nat, Slot>, u: nat, e: Slot, q: nat)
    requires u !in slots
    ensures |SlotsOf(slots[u := e], q)| == |SlotsOf(slots, q)| + if q == e.key.registration then 1 else 0
  {
    assert SlotsOf(slots[u := e], q) == SlotsOf(slots, q) + if q == e.key.registration then {u} else {};
  }

  lemma LinkKeeps(s: State, key: Key, closing: bool)
    requires Inv(s) && key.registration in s.registrations && IsNew(s, key) && !Linked(s, key) && key !in s.tagged
    ensures Inv(Linking(s, key, closing))
  {
    hide Shaped, TagsOf, SlotsOf, IsNew, Linked;
    LinkShapes(s, key, closing);
    UnusedOwed(s);
    var t := Linking(s, key, closing);
    var f := Dispatching(key, Some(s.unused), closing, false);
    assert t.slots == s.slots[s.unused := Slot(key, 2, false)];
    forall q | q in t.registrations
      ensures t.registrations[q].references == RegistrationOwed(t, q)
    {
      HeldSnoc(s.stack, f, q);
      assert s.registrations[q].references == RegistrationOwed(s, q);
      OneMoreSlot(s.slots, s.unused, Slot(key, 2, false), q);
    }
    forall y | y in t.slots
      ensures t.slots[y].references == SlotOwed(t, y)
    {
      HeldSnoc(s.stack, f, y);
      assert y in t.connections <==> y == s.unused || y in s.connections;
    }
  }

  function Rejecting(s: State, key: Key, closing: bool): State
    requires key.registration in s.registrations
  {
    EnterRejected(Announce(Retain(s, key.registration, 1), key, closing), key, closing)
  }

  lemma RejectFrames(s: State, t: State, f: Frame)
    requires FramesSound(s) && SameBut(s, t) && f.Dispatching? && f.slot == None && (f.releases ==> f.closing)
    requires f.key.registration in s.registrations
    requires t.live == if f.closing then s.live - {f.key} else s.live + {f.key}
    requires f.key in s.live || IsNew(s, f.key)
    ensures FrameSound(t, f)
    ensures forall k :: 0 <= k < |s.stack| && s.stack[k].Dispatching? && s.stack[k].closing ==>
              s.stack[k].key !in t.live
  {
    assert f.key.registration in t.registrations.Keys;
    forall k | 0 <= k < |s.stack| && s.stack[k].Dispatching? && s.stack[k].closing
      ensures s.stack[k].key !in t.live
    {
      assert FrameSound(s, s.stack[k]);
    }
  }

  lemma RejectLive(s: State, t: State, key: Key)
    requires LiveSound(s) && SameBut(s, t) && !Linked(s, key) && key.registration in s.registrations
    requires (t.live == s.live - {key} && t.tagged == s.tagged - {key})
             || (t.live == s.live + {key} && t.tagged == s.tagged + {key})
    ensures LiveSound(t)
  {
    SameLinked(s, t);
    hide Linked;
  }

  lemma NotLinked(s: State, key: Key)
    requires Shaped(s) && !Linked(s, key)
    ensures forall x :: x in s.connections && x in s.slots ==> s.slots[x].key != key
    ensures key in s.tagged ==> key in s.live
    ensures key in s.live ==> key in s.tagged
  {
  }

  lemma RejectShapes(s: State, key: Key, closing: bool)
    requires Shaped(s) && key.registration in s.registrations && !Linked(s, key)
    requires key in s.tagged || IsNew(s, key)
    ensures Shaped(Rejecting(s, key, closing))
  {
    hide FrameSound, FramesSound, ListSound, LiveSound, Accounted, Linked, IsNew;
    NotLinked(s, key);
    var t := Rejecting(s, key, closing);
    var f := Top(t);
    assert t.registrations.Keys == s.registrations.Keys;
    assert SameBut(s, t);
    RejectFrames(s, t, f);
    AddFrameFrames(s, t, f);
    AddFrameList(s, t, f);
    AddFrameAccounts(s, t);
    RejectLive(s, t, key);
  }

  lemma OneTag(tagged: set<Key>, key: Key, q: nat)
    ensures key in tagged ==>
              |TagsOf(tagged - {key}, q)| == |TagsOf(tagged, q)| - if q == key.registration then 1 else 0
    ensures key !in tagged ==>
              |TagsOf(tagged + {key}, q)| == |TagsOf(tagged, q)| + if q == key.registration then 1 else 0
  {
    var gone := if q == key.registration then {key} else {};
    assert key in tagged ==> TagsOf(tagged - {key}, q) == TagsOf(tagged, q) - gone && gone <= TagsOf(tagged, q);
    assert key !in tagged ==> TagsOf(tagged + {key}, q) == TagsOf(tagged, q) + gone && key !in TagsOf(tagged, q);
  }

  lemma RejectKeeps(s: State, key: Key, closing: bool)
    requires Inv(s) && key.registration in s.registrations && !Linked(s, key)
    requires key in s.tagged || IsNew(s, key)
    ensures Inv(Rejecting(s, key, closing))
  {
    hide Shaped, SlotsOf, TagsOf, IsNew, Linked;
    RejectShapes(s, key, closing);
    var t := Rejecting(s, key, closing);
    var f := Top(t);
    assert t.stack == s.stack + [f];
    forall q | q in t.registrations
      ensures t.registrations[q].references == RegistrationOwed(t, q)
    {
      HeldSnoc(s.stack, f, q);
      assert s.registrations[q].references == RegistrationOwed(s, q);
      OneTag(s.tagged, key, q);
    }
    forall y | y in t.slots
      ensures t.slots[y].references == SlotOwed(t, y)
    {
      HeldSnoc(s.stack, f, y);
    }
  }

  lemma DispatchKeeps(s: State, key: Key, listener: Option<Key>, closing: bool, allocates: bool)
    requires Inv(s) && (key in s.live || (IsNew(s, key) && Announced(s, key, listener)))
    requires !Inherits(s, key, listener)
    ensures key.registration in s.registrations && Inv(BeginDispatch(s, key, listener, closing, allocates))
  {
    hide Shaped, SlotOwed, RegistrationOwed, IsNew, Linked, Announced, Inherits;
    DispatchContext(s, key, listener);
    FindLinked(s, key);
    var entry := Find(s.slots, s.connections, key);
    if entry.Some? {
      EnterSlotKeeps(s, key, entry.value, closing);
    } else if key !in s.tagged && (s.registrations[key.registration].reserved || allocates) {
      LinkKeeps(s, key, closing);
    } else {
      RejectKeeps(s, key, closing);
    }
  }

  // ----- a tag that is inherited -----

  /** The step announces a connection on one that carries the failure tag. */
  predicate InheritsTag(s: State, a: Action) { a.Dispatch? && Inherits(s, a.key, a.listener) }

  /** Every count is what it owes. */
  ghost predicate Exact(s: State) { Balanced(s, 0, 0, 0, 0) }

  /** The tag comes without the reference that its final close will drop: one is missing at once. */
  lemma InheritingBreaks(s: State, a: Action)
    requires Inv(s) && Enabled(s, a) && InheritsTag(s, a)
    ensures Safe(s, a)
    ensures var t := Step(s, a);
            var r := a.key.registration;
            && r in t.registrations && t.registrations[r].references + 1 == RegistrationOwed(t, r)
            && !Exact(t)
  {
    hide Shaped, SlotsOf, TagsOf, IsNew, Linked, Announced;
    var key, r := a.key, a.key.registration;
    DispatchContext(s, key, a.listener);
    NotLinkedIsUntagged(s, key);
    FindLinked(s, key);
    var t := Step(s, a);
    assert Find(s.slots, s.connections, key).None?;
    var f := Dispatching(key, None, a.closing, a.closing);
    assert t.stack == s.stack + [f] && t.slots == s.slots;
    HeldSnoc(s.stack, f, r);
    OneTag(s.tagged, key, r);
    assert s.tagged + {key} - {key} == s.tagged;
    assert s.registrations[r].references == RegistrationOwed(s, r);
  }

  lemma NotLinkedIsUntagged(s: State, key: Key)
    requires Shaped(s) && key !in s.live
    ensures key !in s.tagged
  {
  }

  // ----- the theorems -----

  /** No connection of the run was announced on one that carries the failure tag. */
  predicate NeverInherits(actions: seq<Action>) {
    actions == [] ||
    (NeverInherits(actions[..|actions| - 1]) &&
     (var s := Run(actions[..|actions| - 1]);
      Enabled(s, actions[|actions| - 1]) ==> !InheritsTag(s, actions[|actions| - 1])))
  }

  lemma StepKeeps(s: State, a: Action)
    requires Inv(s) && Enabled(s, a)
    ensures Safe(s, a)
    ensures !InheritsTag(s, a) ==> Inv(Step(s, a))
  {
    if InheritsTag(s, a) {
      InheritingBreaks(s, a);
    } else {
      hide Inv;
      match a {
        case Open => OpenKeeps(s);
        case OpenReturns => OpenReturnKeeps(s);
        case Dispatch(key, listener, closing, allocates) => DispatchKeeps(s, key, listener, closing, allocates);
        case DispatchReturns => if Top(s).slot.Some? { ReturnWithSlot(s); } else { ReturnWithoutSlot(s); }
      }
    }
  }

  lemma {:induction false} RunKeeps(actions: seq<Action>)
    requires NeverInherits(actions)
    ensures Inv(Run(actions))
  {
    if actions == [] {
      assert Inv(INITIAL);
    } else {
      hide Inv;
      var s := Run(actions[..|actions| - 1]);
      RunKeeps(actions[..|actions| - 1]);
      if Enabled(s, actions[|actions| - 1]) {
        StepKeeps(s, actions[|actions| - 1]);
      }
    }
  }

  /** Counts are exact after every action of the run. */
  ghost predicate AlwaysExact(actions: seq<Action>) {
    Exact(Run(actions)) && (actions != [] ==> AlwaysExact(actions[..|actions| - 1]))
  }

  /** Counts are exact all along a run if and only if no connection of the run is announced on one that
      carries the failure tag. */
  lemma {:induction false} ExactIffNeverInherits(actions: seq<Action>)
    ensures AlwaysExact(actions) <==> NeverInherits(actions)
    decreases |actions|
  {
    hide Inv, Exact, InheritsTag, Enabled, Safe, Step;
    if NeverInherits(actions) {
      RunKeeps(actions);
      InvIsExact(Run(actions));
    }
    if actions != [] {
      var init, a := actions[..|actions| - 1], actions[|actions| - 1];
      ExactIffNeverInherits(init);
      if NeverInherits(init) && !NeverInherits(actions) {
        RunKeeps(init);
        InheritingBreaks(Run(init), a);
      }
    }
  }

  lemma InvIsExact(s: State)
    requires Inv(s)
    ensures Exact(s)
  {
  }

  /** In every reachable state a registration's count is the open call, the running dispatches, the
      final closes of rejected connections, its slots and its rejected connections; a slot's count is
      its place in the list and the dispatches running on it; neither is zero. */
  lemma CountsAreExact(actions: seq<Action>, id: nat)
    requires NeverInherits(actions)
    ensures var s := Run(actions);
            && (id in s.registrations ==> 0 < s.registrations[id].references == RegistrationOwed(s, id))
            && (id in s.slots ==> 0 < s.slots[id].references == SlotOwed(s, id))
  {
    RunKeeps(actions);
    hide SlotsOf, TagsOf;
  }

  /** No step ever reaches freed memory or drops a count below zero, even when a close is delivered
      inside another callback. */
  lemma NothingFreedIsUsed(actions: seq<Action>, a: Action)
    requires NeverInherits(actions)
    ensures Enabled(Run(actions), a) ==> Safe(Run(actions), a)
  {
    hide Inv;
    RunKeeps(actions);
    if Enabled(Run(actions), a) {
      StepKeeps(Run(actions), a);
    }
  }

  /** Every registration and slot ever made is live or was freed exactly once; with no call running and
      no connection open, all of them have been freed. */
  lemma FreedExactlyOnce(actions: seq<Action>, id: nat)
    requires NeverInherits(actions)
    ensures var s := Run(actions);
            && Distinct(s.freed)
            && (id < s.unused <==> id in s.registrations || id in s.slots || id in s.freed)
            && (id in s.freed ==> id !in s.registrations && id !in s.slots)
            && (s.stack == [] && s.live == {} ==>
                  && s.registrations == map[] && s.slots == map[] && s.connections == []
                  && (id < s.unused <==> id in s.freed))
  {
    RunKeeps(actions);
    var s := Run(actions);
    if s.stack == [] && s.live == {} {
      Quiet(s);
    }
  }

  lemma HeadIsMember(xs: seq<nat>)
    ensures xs == [] || exists x :: x in xs
  {
    if xs != [] {
      assert xs[0] in xs;
    }
  }

  lemma Quiet(s: State)
    requires Inv(s) && s.stack == [] && s.live == {}
    ensures s.registrations == map[] && s.slots == map[] && s.connections == []
  {
    HeadIsMember(s.connections);
    assert forall x :: x !in s.connections;
    assert forall x :: SlotOwed(s, x) == 0;
    assert forall x :: x !in s.slots;
    assert forall key :: key !in s.tagged;
    assert forall r :: SlotsOf(s.slots, r) == {} && TagsOf(s.tagged, r) == {};
    assert forall r :: RegistrationOwed(s, r) == 0;
    assert forall r :: r !in s.registrations;
  }
}
