/** The coloured depth-first search of src/opcua_dynamic_impl.h that lays out a group of types. */
module TypeLayouter {
  import opened Common
  import opened TypeLayout
  import opened TypeLayoutProofs
  import opened LayoutPlans

  datatype Color = White | Gray | Black

  datatype Status = Good | DefinitionInvalid | NotImplemented | TypeMismatch | LimitsExceeded

  class Group {
    const p: Platform
    const g: Graph
    var state: seq<Color>
    var layouts: Layouts
    ghost var rank: map<nat, nat>

    ghost predicate Valid()
      reads this
    {
      && |state| == |g| && WellFormed(g) && p.u32Align > 0
      && (forall i: nat :: i in layouts <==> (i < |g| && state[i] == Black))
      && Consistent(p, g, layouts)
      && Ranked(g, layouts, rank)
      && (forall i :: i in rank ==> rank[i] < |layouts|)
    }

    constructor (p: Platform, g: Graph)
      requires WellFormed(g) && p.u32Align > 0
      ensures Valid() && this.p == p && this.g == g && forall i :: 0 <= i < |g| ==> state[i] == White
    {
      this.p, this.g := p, g;
      state := seq(|g|, _ => White);
      layouts, rank := map[], map[];
    }

    ghost function Whites(): set<nat>
      reads this
    {
      set i: nat | i < |state| && state[i] == White
    }

    /** Nothing laid out is touched, nothing seen becomes unseen. */
    twostate predicate Grows()
      reads this
    {
      && |old(state)| == |state|
      && (forall i :: 0 <= i < |state| && old(state)[i] != White ==> state[i] == old(state)[i])
      && (forall i :: i in old(layouts) ==> i in layouts && layouts[i] == old(layouts)[i])
    }

    /** The grays are the types being laid out; a finished call leaves them as it found them. */
    twostate predicate SameGrays()
      reads this
    {
      |old(state)| == |state| && forall i :: 0 <= i < |state| ==> (state[i] == Gray <==> old(state)[i] == Gray)
    }

    /** A plan for the group, with heights that descend. */
    ghost predicate Planned(plan: Option<Plan>)
      reads this
    {
      plan.Some? ==> Works(p, g, plan.value) && Descends(g, plan.value.height)
    }

    /** The grays hold `index`: they stand above it. */
    ghost predicate Below(plan: Option<Plan>, index: nat)
      requires Valid() && Planned(plan) && index < |g|
      reads this
    {
      plan.Some? ==>
        forall i :: 0 <= i < |g| && state[i] == Gray ==> plan.value.height[index] < plan.value.height[i]
    }

    /** As `Below`, once `index` is gray itself. */
    ghost predicate Lowest(plan: Option<Plan>, index: nat)
      requires Valid() && Planned(plan) && index < |g|
      reads this
    {
      plan.Some? ==>
        forall i :: 0 <= i < |g| && state[i] == Gray ==> plan.value.height[index] <= plan.value.height[i]
    }

    /** The outcome is the one that visiting types in order predicts. */
    ghost predicate Decided(status: Status, predicted: Option<set<nat>>)
      reads this
    {
      (status == Good <==> predicted.Some?) && (predicted.Some? ==> layouts.Keys == predicted.value)
    }

    method Paint(index: nat, l: Layout)
      requires Valid() && index < |g| && state[index] == Gray
      requires Aggregate(g[index]) ==> Known(g, index, |g[index].members|, layouts)
      requires Compute(p, g, index, layouts) == Some(l)
      modifies this
      ensures Valid() && state == old(state)[index := Black] && layouts == old(layouts)[index := l]
    {
      hide Consistent, Ranked, Compute, Known;
      AddKeepsTable(p, g, layouts, rank, index, l);
      rank := rank[index := |layouts|];
      layouts := layouts[index := l];
      state := state[index := Black];
    }

    /** One type: gray while its members are laid out, black when done. With a plan only the depth can
        stop it. */
    method LayOut(index: nat, depth: nat, ghost plan: Option<Plan>) returns (status: Status)
      requires Valid() && Planned(plan) && index < |g| && (state[index] != Black ==> Below(plan, index))
      modifies this
      ensures Valid() && Grows()
      ensures status == Good ==> state[index] == Black && SameGrays()
      ensures plan.Some? ==> Decided(status, Visit(g, plan.value.height, old(layouts).Keys, index, depth))
      decreases Whites(), 0
    {
      hide Consistent, Ranked, VisitMembers, Works, Descends;
      if state[index] == Black {
        return Good;
      }
      if state[index] == Gray || depth > MAX_DEPTH {
        return DefinitionInvalid;
      }
      ghost var whites := Whites();
      state := state[index := Gray];
      assert index in whites && Whites() == whites - {index};
      status := LayOutGray(index, depth, plan);
    }

    method LayOutGray(index: nat, depth: nat, ghost plan: Option<Plan>) returns (status: Status)
      requires Valid() && Planned(plan) && index < |g| && state[index] == Gray && Lowest(plan, index)
      modifies this
      ensures Valid() && |state| == |old(state)|
      ensures forall i :: 0 <= i < |state| && i != index && old(state)[i] != White ==> state[i] == old(state)[i]
      ensures forall i :: i in old(layouts) ==> i in layouts && layouts[i] == old(layouts)[i]
      ensures status == Good ==>
                && state[index] == Black
                && forall i :: 0 <= i < |state| && i != index ==> (state[i] == Gray <==> old(state)[i] == Gray)
      ensures plan.Some? ==>
                var seen := VisitMembers(g, plan.value.height, old(layouts).Keys, index, 0, depth);
                Decided(status, if seen.None? then None else Some(seen.value + {index}))
      decreases Whites(), 4
    {
      hide Consistent, Ranked, Compute, WalkTo, Finish, Works, Known, Visit, Descends, WellFormed, Whites, VisitChild;
      if plan.Some? {
        PlannedType(p, g, plan.value, index);
      }
      var t := g[index];
      if t.kind.Simple? {
        if t.memSize != t.kind.entry.memSize {
          return DefinitionInvalid;
        }
        ComputeSimple(p, g, index, layouts);
        Paint(index, Layout(t.kind.entry.size, t.kind.entry.alignment, []));
        return Good;
      }
      if !Aggregate(t) {
        return NotImplemented;
      }
      if t.members != [] && t.membersMissing {
        return DefinitionInvalid;
      }
      var w;
      status, w := LayOutMembers(index, depth, plan);
      if status != Good {
        return;
      }
      var l := Finish(p, w);
      if plan.Some? {
        PlannedWalk(p, g, layouts, rank, plan.value, index, |t.members|);
      }
      ComputeAggregate(p, g, index, layouts, w);
      if l.None? {
        return LimitsExceeded;
      }
      Paint(index, l.value);
    }

    /** The member loop of one type. */
    method LayOutMembers(index: nat, depth: nat, ghost plan: Option<Plan>) returns (status: Status, w: Walk)
      requires Valid() && Planned(plan) && index < |g| && state[index] == Gray && Aggregate(g[index])
      requires Lowest(plan, index)
      modifies this
      ensures Valid() && Grows()
      ensures status == Good ==>
                && SameGrays() && w.alignment > 0
                && Known(g, index, |g[index].members|, layouts)
                && WalkTo(p, g, index, |g[index].members|, layouts) == Some(w)
      ensures plan.Some? ==> Decided(status, VisitMembers(g, plan.value.height, old(layouts).Keys, index, 0, depth))
      decreases Whites(), 3
    {
      hide Consistent, Ranked, Compute, Works, WalkTo, Known, Start, WellFormed, Whites, Visit, VisitChild, Descends;
      var t := g[index];
      w := Start(p, t.kind.Union?);
      WalkFirst(p, g, index, layouts);
      var i := 0;
      while i < |t.members|
        invariant i <= |t.members| && Valid() && Grows() && SameGrays() && w.alignment > 0
        invariant Known(g, index, i, layouts) && WalkTo(p, g, index, i, layouts) == Some(w)
        invariant Whites() <= old(Whites())
        invariant plan.Some? ==>
                    VisitMembers(g, plan.value.height, layouts.Keys, index, i, depth)
                    == VisitMembers(g, plan.value.height, old(layouts).Keys, index, 0, depth)
      {
        status, w := LayOutMember(index, i, depth, plan, w);
        if status != Good {
          return;
        }
        i := i + 1;
      }
      status := Good;
    }

    /** One turn of the member loop. */
    method LayOutMember(index: nat, k: nat, depth: nat, ghost plan: Option<Plan>, w: Walk)
      returns (status: Status, next: Walk)
      requires Valid() && Planned(plan) && index < |g| && state[index] == Gray && Aggregate(g[index])
      requires Lowest(plan, index)
      requires k < |g[index].members| && Known(g, index, k, layouts) && WalkTo(p, g, index, k, layouts) == Some(w)
      requires w.alignment > 0
      modifies this
      ensures Valid() && Grows() && Whites() <= old(Whites())
      ensures status == Good ==>
                && SameGrays() && next.alignment > 0
                && Known(g, index, k + 1, layouts) && WalkTo(p, g, index, k + 1, layouts) == Some(next)
      ensures plan.Some? ==> Decided(status, VisitChild(g, plan.value.height, old(layouts).Keys, index, k, depth))
      decreases Whites(), 2
    {
      hide Consistent, Ranked, Compute, Works, Place, SlotOf, WalkTo, Known, WellFormed, VisitChild, Descends;
      var m := g[index].members[k];
      if plan.Some? {
        PlannedWalk(p, g, layouts, rank, plan.value, index, k);
      }
      if m.target.Unknown? {
        return TypeMismatch, w;
      }
      status := LayOutChild(index, k, depth, plan, w);
      if status != Good {
        return status, w;
      }
      if plan.Some? {
        PlannedWalk(p, g, layouts, rank, plan.value, index, k + 1);
      }
      KnownLast(g, index, k + 1, layouts);
      WalkNext(p, g, index, k, layouts, w);
      var slot := SlotOf(p, g, m, layouts);
      var placed := Place(p, g[index], w, m, slot);
      if placed.None? {
        return DefinitionInvalid, w;
      }
      PlaceKeepsAlignment(p, g[index], w, m, slot);
      next := placed.value;
    }

    /** Only a member held by value needs its own layout first. */
    method LayOutChild(index: nat, k: nat, depth: nat, ghost plan: Option<Plan>, ghost w: Walk) returns (status: Status)
      requires Valid() && Planned(plan) && index < |g| && state[index] == Gray && Aggregate(g[index])
      requires Lowest(plan, index)
      requires k < |g[index].members| && Known(g, index, k, layouts) && WalkTo(p, g, index, k, layouts) == Some(w)
      modifies this
      ensures Valid() && Grows() && Whites() <= old(Whites())
      ensures status == Good ==>
                SameGrays() && Known(g, index, k + 1, layouts) && WalkTo(p, g, index, k, layouts) == Some(w)
      ensures plan.Some? ==> Decided(status, VisitChild(g, plan.value.height, old(layouts).Keys, index, k, depth))
      decreases Whites(), 1
    {
      hide Consistent, Ranked, Compute, Works, WalkTo, Known, Visit, Descends;
      var m := g[index].members[k];
      if !ByValue(m) {
        KnownNext(g, index, k, layouts);
        return Good;
      }
      if plan.Some? {
        PlannedChild(p, g, plan.value, index, k);
      }
      ghost var before := layouts;
      status := LayOut(m.target.index, depth + 1, plan);
      WalkKept(p, g, index, k, before, layouts);
      if status == Good {
        KnownNext(g, index, k, layouts);
      }
    }

    /** The whole group, in declaration order: success means a layout for every type, no by-value cycle,
        and the only consistent table; and a group that has a plan succeeds exactly when visiting its
        types in order stays within the depth. */
    method LayOutAll() returns (status: Status)
      requires Valid() && forall i :: 0 <= i < |g| ==> state[i] == White
      modifies this
      ensures Valid()
      ensures status == Good ==> Works(p, g, Plan(layouts, rank)) && !HasCycle(g)
      ensures forall plan :: Works(p, g, plan) && Descends(g, plan.height) ==>
                (status == Good <==> VisitAll(g, plan.height, {}, 0).Some?)
      ensures Layable(p, g) ==> status == Good
      ensures forall plan :: status == Good && Works(p, g, plan) ==> plan.layouts == layouts
    {
      hide Consistent, Ranked, Compute, HasCycle, VisitAll, Descends, Layable, FindPlan;
      ghost var plan := FindPlan(p, g);
      status := LayOutInOrder(plan);
      if status == Good {
        LaidOutIsAcyclic(g, layouts, rank);
        OnlyPlan(p, g, Plan(layouts, rank));
      }
      if plan.Some? {
        forall other | Works(p, g, other) && Descends(g, other.height)
          ensures status == Good <==> VisitAll(g, other.height, {}, 0).Some?
        {
          OrderIgnoresHeights(g, plan.value.height, other.height, {}, 0);
        }
      }
    }

    /** The loop over all types. */
    method LayOutInOrder(ghost plan: Option<Plan>) returns (status: Status)
      requires Valid() && Planned(plan) && forall i :: 0 <= i < |g| ==> state[i] == White
      modifies this
      ensures Valid()
      ensures status == Good ==> forall i :: 0 <= i < |g| ==> state[i] == Black
      ensures plan.Some? ==> (status == Good <==> VisitAll(g, plan.value.height, {}, 0).Some?)
    {
      hide Consistent, Ranked, Compute, Works, Descends, Visit;
      var i := 0;
      assert layouts.Keys == {};
      while i < |g|
        invariant i <= |g| && Valid()
        invariant forall k :: 0 <= k < i ==> state[k] == Black
        invariant forall k :: 0 <= k < |g| ==> state[k] != Gray
        invariant plan.Some? ==>
                    VisitAll(g, plan.value.height, layouts.Keys, i) == VisitAll(g, plan.value.height, {}, 0)
      {
        status := LayOut(i, 0, plan);
        if status != Good {
          return;
        }
        i := i + 1;
      }
      status := Good;
    }
  }
}
