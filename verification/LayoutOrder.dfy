/** Beyond the depth of the search, the order of declaration decides: one chain of types in two orders. */
module LayoutOrder {
  import opened Common
  import opened TypeLayout
  import opened TypeLayoutProofs
  import opened LayoutPlans

  const LEAF: Native := Native(Simple(Entry(8, 8, 8)), 8, [], false)

  /** A structure that holds type `target` by value and nothing else. */
  function Link(target: nat): Native { Native(Structure, 8, [Member(Own(target), false, false, 0)], false) }

  /** The chain from the outside in: every type holds the next. */
  function Inward(n: nat): (g: Graph)
    ensures |g| == n + 1
  {
    seq(n + 1, i requires 0 <= i => if i == n then LEAF else Link(i + 1))
  }

  /** The same chain from the inside out: every type holds the one before. */
  function Outward(n: nat): (g: Graph)
    ensures |g| == n + 1
  {
    seq(n + 1, i requires 0 <= i => if i == 0 then LEAF else Link(i - 1))
  }

  function EightBytes(t: Native): Layout { Layout(8, 8, if t == LEAF then [] else [Placed(0, 0, 0, 0)]) }

  function ChainLayouts(g: Graph): Layouts { map i: nat | i < |g| :: EightBytes(g[i]) }

  lemma HeldIsPlaced(p: Platform, t: Native, m: Member)
    requires 16 <= p.sizeMax && t.kind == Structure && t.memSize == 8 && m.padding == 0 && !m.isArray
    ensures Place(p, t, Walk(0, 1, 0, []), m, Slot(8, 8, 8)) == Some(Walk(8, 8, 8, [Placed(0, 0, 0, 0)]))
  {
    assert Pad(0, 8) == 0;
    assert Wrapped(p, 0) == 0;
    assert [] + [Placed(0, 0, 0, 0)] == [Placed(0, 0, 0, 0)];
  }

  lemma EndIsFinished(p: Platform)
    requires 16 <= p.sizeMax
    ensures Finish(p, Walk(8, 8, 8, [Placed(0, 0, 0, 0)])) == Some(Layout(8, 8, [Placed(0, 0, 0, 0)]))
  {
    assert Pad(8, 8) == 0;
  }

  lemma LinkComputes(p: Platform, g: Graph, i: nat, j: nat, done: Layouts)
    requires 16 <= p.sizeMax && p.u32Align > 0 && i < |g| && g[i] == Link(j)
    requires j < |g| && j in done && done[j].size == done[j].alignment == g[j].memSize == 8
    ensures Known(g, i, 1, done) && Compute(p, g, i, done) == Some(EightBytes(g[i]))
  {
    hide Place, Finish;
    HeldIsPlaced(p, g[i], g[i].members[0]);
    EndIsFinished(p);
    assert WalkTo(p, g, i, 0, done) == Some(Walk(0, 1, 0, []));
    assert SlotOf(p, g, g[i].members[0], done) == Slot(8, 8, 8);
  }

  /** A group of links to types of the group and leaves. */
  predicate IsLinked(g: Graph) {
    forall i :: 0 <= i < |g| ==>
      g[i] == LEAF || (g[i].members != [] && g[i].members[0].target.Own? && g[i].members[0].target.index < |g|
                       && g[i] == Link(g[i].members[0].target.index))
  }

  lemma ChainIsConsistent(p: Platform, g: Graph)
    requires 16 <= p.sizeMax && p.u32Align > 0 && IsLinked(g)
    ensures Consistent(p, g, ChainLayouts(g))
  {
    var done := ChainLayouts(g);
    forall i | i in done
      ensures (Aggregate(g[i]) ==> Known(g, i, |g[i].members|, done)) && Compute(p, g, i, done) == Some(done[i])
    {
      if g[i] != LEAF {
        var j := g[i].members[0].target.index;
        assert g[j].memSize == 8;
        LinkComputes(p, g, i, j, done);
      }
    }
  }

  lemma ChainHasPlan(p: Platform, g: Graph, height: map<nat, nat>)
    requires 16 <= p.sizeMax && p.u32Align > 0 && IsLinked(g) && height.Keys == ChainLayouts(g).Keys
    requires forall i :: 0 <= i < |g| && g[i] != LEAF ==> height[g[i].members[0].target.index] < height[i]
    ensures Works(p, g, Plan(ChainLayouts(g), height)) && Descends(g, height)
  {
    ChainIsConsistent(p, g);
    hide Consistent;
    HeightsDescend(p, g, Plan(ChainLayouts(g), height));
  }

  lemma InwardIsLinked(n: nat)
    ensures IsLinked(Inward(n)) && IsChain(Inward(n))
    ensures forall i :: 0 <= i <= n && Inward(n)[i] != LEAF ==> Inward(n)[i].members[0].target.index == i + 1
  {
  }

  /** From the outside in the search gets too deep. */
  lemma InwardIsNotVisited(p: Platform, n: nat) returns (plan: Plan)
    requires 16 <= p.sizeMax && p.u32Align > 0 && n > 128
    ensures Works(p, Inward(n), plan) && Descends(Inward(n), plan.height)
    ensures VisitAll(Inward(n), plan.height, {}, 0).None?
  {
    hide Works, VisitAll, Descends, IsLinked, IsChain, Inward, EightBytes;
    InwardIsLinked(n);
    var g := Inward(n);
    var height: map<nat, nat> := map i | i in ChainLayouts(g) :: n - i;
    ChainHasPlan(p, g, height);
    ChainIsNotVisited(g, height);
    plan := Plan(ChainLayouts(g), height);
  }

  lemma OutwardIsPartsFirst(n: nat)
    ensures PartsFirst(Outward(n))
  {
  }

  /** From the inside out it never does. */
  lemma OutwardIsVisited(p: Platform, n: nat) returns (plan: Plan)
    requires 16 <= p.sizeMax && p.u32Align > 0
    ensures Works(p, Outward(n), plan) && Descends(Outward(n), plan.height)
    ensures VisitAll(Outward(n), plan.height, {}, 0).Some?
  {
    hide Works, VisitAll, Descends, PartsFirst;
    var g := Outward(n);
    var height: map<nat, nat> := map i | i in ChainLayouts(g) :: i;
    ChainHasPlan(p, g, height);
    OutwardIsPartsFirst(n);
    PartsFirstIsVisited(g, height, {}, 0);
    plan := Plan(ChainLayouts(g), height);
  }
}
