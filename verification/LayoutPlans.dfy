/** When a group of types can be laid out at all, with no search. */
module LayoutPlans {
  import opened Common
  import opened TypeLayout
  import opened TypeLayoutProofs

  const MAX_DEPTH: nat := 128

  /** A layout for every type of the group, and heights that descend along by-value containment. */
  datatype Plan = Plan(layouts: Layouts, height: map<nat, nat>)

  ghost predicate Works(p: Platform, g: Graph, plan: Plan) {
    && Consistent(p, g, plan.layouts)
    && Ranked(g, plan.layouts, plan.height)
    && forall i: nat :: i in plan.layouts <==> i < |g|
  }

  lemma AddKeepsTable(p: Platform, g: Graph, done: Layouts, rank: map<nat, nat>, i: nat, l: Layout)
    requires Consistent(p, g, done) && Ranked(g, done, rank) && i < |g| && i !in done
    requires Aggregate(g[i]) ==> Known(g, i, |g[i].members|, done)
    requires Compute(p, g, i, done) == Some(l)
    requires forall j :: j in rank ==> rank[j] < |done|
    ensures Consistent(p, g, done[i := l])
    ensures Ranked(g, done[i := l], rank[i := |done|])
  {
    var more := done[i := l];
    forall j | j in more
      ensures j < |g| && (Aggregate(g[j]) ==> Known(g, j, |g[j].members|, more))
      ensures Compute(p, g, j, more) == Some(more[j])
    {
      ComputeAgrees(p, g, j, done, more);
    }
    assert rank[i := |done|].Keys == more.Keys;
  }

  /** While a plan exists the member loop never fails. */
  lemma {:induction false} PlanWalks(p: Platform, g: Graph, plan: Plan, i: nat, n: nat)
    requires Works(p, g, plan) && i < |g| && Aggregate(g[i]) && n <= |g[i].members|
    requires Known(g, i, n, plan.layouts)
    ensures WalkTo(p, g, i, n, plan.layouts).Some?
    ensures n < |g[i].members| ==> !g[i].members[n].target.Unknown?
    decreases |g[i].members| - n
  {
    if n < |g[i].members| {
      assert Known(g, i, |g[i].members|, plan.layouts);
      PlanWalks(p, g, plan, i, n + 1);
      hide Place;
    } else {
      hide WalkTo;
      assert Compute(p, g, i, plan.layouts).Some?;
    }
  }

  lemma PlannedWalk(p: Platform, g: Graph, done: Layouts, rank: map<nat, nat>, plan: Plan, i: nat, n: nat)
    requires Works(p, g, plan) && Consistent(p, g, done) && Ranked(g, done, rank)
    requires i < |g| && Aggregate(g[i]) && n <= |g[i].members| && Known(g, i, n, done)
    ensures WalkTo(p, g, i, n, done).Some?
    ensures n < |g[i].members| ==> !g[i].members[n].target.Unknown?
    ensures n == |g[i].members| ==> Compute(p, g, i, done).Some?
  {
    forall k | 0 <= k < n && ByValue(g[i].members[k])
      ensures done[g[i].members[k].target.index] == plan.layouts[g[i].members[k].target.index]
    {
      LayoutIsUnique(p, g, done, rank, plan.layouts, g[i].members[k].target.index);
    }
    WalkAgrees(p, g, i, n, done, plan.layouts);
    PlanWalks(p, g, plan, i, n);
    assert Compute(p, g, i, plan.layouts).Some?;
  }

  /** What a plan says about a single type. */
  lemma PlannedType(p: Platform, g: Graph, plan: Plan, i: nat)
    requires Works(p, g, plan) && i < |g|
    ensures g[i].kind.Simple? ==> g[i].memSize == g[i].kind.entry.memSize
    ensures !g[i].kind.Simple? ==> Aggregate(g[i]) && !(g[i].members != [] && g[i].membersMissing)
    ensures i in plan.height
  {
    assert Compute(p, g, i, plan.layouts).Some?;
    hide WalkTo;
  }

  lemma PlannedChild(p: Platform, g: Graph, plan: Plan, i: nat, k: nat)
    requires Works(p, g, plan) && i < |g| && Aggregate(g[i]) && k < |g[i].members| && ByValue(g[i].members[k])
    requires g[i].members[k].target.index < |g|
    ensures i in plan.height && g[i].members[k].target.index in plan.height
    ensures plan.height[g[i].members[k].target.index] < plan.height[i]
  {
    hide WalkTo, Compute;
    assert Holds(g, i, g[i].members[k].target.index);
  }

  lemma PlaceKeepsAlignment(p: Platform, t: Native, w: Walk, m: Member, slot: Slot)
    requires Place(p, t, w, m, slot).Some? && w.alignment > 0
    ensures Place(p, t, w, m, slot).value.alignment > 0
  {
  }

  /** Layouts added later do not disturb a member loop in progress. */
  lemma WalkKept(p: Platform, g: Graph, i: nat, n: nat, a: Layouts, b: Layouts)
    requires i < |g| && n <= |g[i].members| && Known(g, i, n, a)
    requires forall j :: j in a ==> j in b && b[j] == a[j]
    ensures Known(g, i, n, b) && WalkTo(p, g, i, n, b) == WalkTo(p, g, i, n, a)
  {
    hide WalkTo;
    WalkAgrees(p, g, i, n, a, b);
  }

  lemma KnownNext(g: Graph, i: nat, n: nat, done: Layouts)
    requires i < |g| && n < |g[i].members| && Known(g, i, n, done)
    requires ByValue(g[i].members[n]) ==> g[i].members[n].target.index in done && g[i].members[n].target.index < |g|
    ensures Known(g, i, n + 1, done)
  {
  }

  lemma KnownLast(g: Graph, i: nat, n: nat, done: Layouts)
    requires i < |g| && 0 < n <= |g[i].members| && Known(g, i, n, done)
    ensures Known(g, i, n - 1, done)
    ensures ByValue(g[i].members[n - 1]) ==>
              g[i].members[n - 1].target.index in done && g[i].members[n - 1].target.index < |g|
  {
  }

  lemma WalkNext(p: Platform, g: Graph, i: nat, n: nat, done: Layouts, w: Walk)
    requires i < |g| && n < |g[i].members| && Known(g, i, n + 1, done) && Known(g, i, n, done)
    requires WalkTo(p, g, i, n, done) == Some(w) && !g[i].members[n].target.Unknown?
    requires ByValue(g[i].members[n]) ==> g[i].members[n].target.index in done && g[i].members[n].target.index < |g|
    ensures WalkTo(p, g, i, n + 1, done) == Place(p, g[i], w, g[i].members[n], SlotOf(p, g, g[i].members[n], done))
  {
    hide Place, SlotOf;
  }

  lemma WalkFirst(p: Platform, g: Graph, i: nat, done: Layouts)
    requires i < |g|
    ensures Known(g, i, 0, done) && WalkTo(p, g, i, 0, done) == Some(Start(p, g[i].kind.Union?))
    ensures p.u32Align > 0 ==> Start(p, g[i].kind.Union?).alignment > 0
  {
  }

  lemma ComputeSimple(p: Platform, g: Graph, i: nat, done: Layouts)
    requires i < |g| && p.u32Align > 0 && g[i].kind.Simple? && g[i].memSize == g[i].kind.entry.memSize
    ensures Compute(p, g, i, done) == Some(Layout(g[i].kind.entry.size, g[i].kind.entry.alignment, []))
  {
  }

  lemma ComputeAggregate(p: Platform, g: Graph, i: nat, done: Layouts, w: Walk)
    requires i < |g| && p.u32Align > 0 && Aggregate(g[i]) && !(g[i].members != [] && g[i].membersMissing)
    requires Known(g, i, |g[i].members|, done) && WalkTo(p, g, i, |g[i].members|, done) == Some(w) && w.alignment > 0
    ensures Compute(p, g, i, done) == Finish(p, w)
  {
    hide WalkTo;
  }

  /** The layouts of a plan are the only ones. */
  lemma OnlyPlan(p: Platform, g: Graph, plan: Plan)
    requires Works(p, g, plan)
    ensures forall other :: Works(p, g, other) ==> other.layouts == plan.layouts
  {
    forall other | Works(p, g, other)
      ensures other.layouts == plan.layouts
    {
      forall i | i in plan.layouts
        ensures i in other.layouts && other.layouts[i] == plan.layouts[i]
      {
        LayoutIsUnique(p, g, plan.layouts, plan.height, other.layouts, i);
      }
      assert other.layouts.Keys == plan.layouts.Keys;
    }
  }

  /** By-value nesting within the depth of the search. */
  ghost predicate Shallow(g: Graph, plan: Plan) {
    forall i :: 0 <= i < |g| ==> i in plan.height && plan.height[i] <= MAX_DEPTH
  }

  ghost predicate Layable(p: Platform, g: Graph) {
    exists plan :: Works(p, g, plan) && Shallow(g, plan)
  }

  // ----- when a plan exists -----

  /** Heights that descend along by-value containment. */
  ghost predicate Descends(g: Graph, height: map<nat, nat>) {
    && (forall i: nat :: i in height <==> i < |g|)
    && (forall i, j :: Holds(g, i, j) ==> j in height && i in height && height[j] < height[i])
  }

  /** Given the layouts of what it holds by value, the type gets one. */
  ghost predicate LaysOut(p: Platform, g: Graph, i: nat, done: Layouts)
    requires i < |g|
  {
    Consistent(p, g, done) && (Aggregate(g[i]) ==> Known(g, i, |g[i].members|, done)) ==>
      Compute(p, g, i, done).Some?
  }

  ghost predicate EachLaysOut(p: Platform, g: Graph) {
    forall i: nat, done: Layouts :: i < |g| ==> LaysOut(p, g, i, done)
  }

  /** A type outside the table whose height is least holds by value only types inside it. */
  lemma {:induction false} LeastOutside(g: Graph, height: map<nat, nat>, done: Layouts, i: nat) returns (least: nat)
    requires Descends(g, height) && i < |g| && i !in done
    ensures least < |g| && least !in done && height[least] <= height[i]
    ensures forall j :: Holds(g, least, j) ==> j in done
    decreases height[i]
  {
    if j :| Holds(g, i, j) && j !in done {
      least := LeastOutside(g, height, done, j);
    } else {
      least := i;
    }
  }

  lemma HeldIsKnown(g: Graph, height: map<nat, nat>, i: nat, done: Layouts)
    requires Descends(g, height) && i < |g| && Aggregate(g[i])
    requires forall j :: Holds(g, i, j) ==> j in done
    ensures Known(g, i, |g[i].members|, done)
  {
    forall k | 0 <= k < |g[i].members| && ByValue(g[i].members[k])
      ensures g[i].members[k].target.index in done && g[i].members[k].target.index < |g|
    {
      assert Holds(g, i, g[i].members[k].target.index);
    }
  }

  ghost function Outside(g: Graph, done: Layouts): set<nat> { set i: nat | i < |g| && i !in done }

  /** A consistent table grows until it covers the group. */
  lemma {:induction false} Complete(p: Platform, g: Graph, height: map<nat, nat>, done: Layouts, rank: map<nat, nat>)
    returns (all: Layouts)
    requires Descends(g, height) && EachLaysOut(p, g)
    requires Consistent(p, g, done) && Ranked(g, done, rank) && forall j :: j in rank ==> rank[j] < |done|
    ensures Consistent(p, g, all) && forall i: nat :: i in all <==> i < |g|
    decreases Outside(g, done)
  {
    if i: nat :| i < |g| && i !in done {
      var least := LeastOutside(g, height, done, i);
      if Aggregate(g[least]) {
        HeldIsKnown(g, height, least, done);
      }
      assert LaysOut(p, g, least, done);
      var l := Compute(p, g, least, done).value;
      AddKeepsTable(p, g, done, rank, least, l);
      assert least in Outside(g, done) && Outside(g, done[least := l]) == Outside(g, done) - {least};
      all := Complete(p, g, height, done[least := l], rank[least := |done|]);
    } else {
      all := done;
    }
  }

  /** A plan exists with these heights if and only if they descend along by-value containment and each
      type can be laid out given what it holds by value. */
  lemma PlanExistsIff(p: Platform, g: Graph, height: map<nat, nat>)
    requires p.u32Align > 0
    ensures (exists layouts :: Works(p, g, Plan(layouts, height))) <==> Descends(g, height) && EachLaysOut(p, g)
  {
    if Descends(g, height) && EachLaysOut(p, g) {
      var all := Complete(p, g, height, map[], map[]);
      assert height.Keys == all.Keys;
      assert Works(p, g, Plan(all, height));
    }
    if layouts :| Works(p, g, Plan(layouts, height)) {
      HeightsDescend(p, g, Plan(layouts, height));
      forall i: nat, done: Layouts | i < |g|
        ensures LaysOut(p, g, i, done)
      {
        PlannedLaysOut(p, g, Plan(layouts, height), i, done);
      }
    }
  }

  lemma HeightsDescend(p: Platform, g: Graph, plan: Plan)
    requires Works(p, g, plan)
    ensures Descends(g, plan.height)
  {
    hide Consistent, Compute;
    assert plan.height.Keys == plan.layouts.Keys;
    forall i, j | Holds(g, i, j)
      ensures j in plan.height && i in plan.height && plan.height[j] < plan.height[i]
    {
      assert i in plan.layouts;
    }
  }

  lemma PlannedLaysOut(p: Platform, g: Graph, plan: Plan, i: nat, done: Layouts)
    requires Works(p, g, plan) && i < |g|
    ensures LaysOut(p, g, i, done)
  {
    if Consistent(p, g, done) && (Aggregate(g[i]) ==> Known(g, i, |g[i].members|, done)) {
      forall j | Holds(g, i, j) && j in plan.layouts && j in done
        ensures plan.layouts[j] == done[j]
      {
        LayoutIsUnique(p, g, plan.layouts, plan.height, done, j);
      }
      ComputeAgrees(p, g, i, plan.layouts, done);
    }
  }

  // ----- the order of visits -----

  function MemberCount(t: Native): nat { if Aggregate(t) then |t.members| else 0 }

  /** The types laid out after visiting `index` at `depth` when `black` were before, unless the visit gets
      too deep. */
  ghost function Visit(g: Graph, height: map<nat, nat>, black: set<nat>, index: nat, depth: nat): Option<set<nat>>
    requires Descends(g, height) && index < |g|
    decreases height[index], |g[index].members| + 2
  {
    if index in black then Some(black)
    else if depth > MAX_DEPTH then None
    else
      var seen := VisitMembers(g, height, black, index, 0, depth);
      if seen.None? then None else Some(seen.value + {index})
  }

  /** The members from `k` on, in order. */
  ghost function VisitMembers(g: Graph, height: map<nat, nat>, black: set<nat>, index: nat, k: nat, depth: nat)
    : Option<set<nat>>
    requires Descends(g, height) && index < |g| && k <= MemberCount(g[index])
    decreases height[index], |g[index].members| + 1 - k
  {
    if k == MemberCount(g[index]) then Some(black)
    else
      var seen := VisitChild(g, height, black, index, k, depth);
      if seen.None? then None else VisitMembers(g, height, seen.value, index, k + 1, depth)
  }

  ghost function VisitChild(g: Graph, height: map<nat, nat>, black: set<nat>, index: nat, k: nat, depth: nat)
    : Option<set<nat>>
    requires Descends(g, height) && index < |g| && k < MemberCount(g[index])
    decreases height[index], 0
  {
    var m := g[index].members[k];
    if !ByValue(m) then Some(black)
    else
      assert Holds(g, index, m.target.index);
      Visit(g, height, black, m.target.index, depth + 1)
  }

  /** Every type from `k` on, in declaration order. */
  ghost function VisitAll(g: Graph, height: map<nat, nat>, black: set<nat>, k: nat): Option<set<nat>>
    requires Descends(g, height) && k <= |g|
    decreases |g| - k
  {
    if k == |g| then Some(black)
    else
      var seen := Visit(g, height, black, k, 0);
      if seen.None? then None else VisitAll(g, height, seen.value, k + 1)
  }

  /** A visit adds its type and forgets none. */
  lemma {:induction false} VisitGrows(g: Graph, height: map<nat, nat>, black: set<nat>, index: nat, depth: nat)
    requires Descends(g, height) && index < |g|
    ensures var seen := Visit(g, height, black, index, depth);
            seen.Some? ==> black <= seen.value && index in seen.value
    decreases height[index], |g[index].members| + 2
  {
    if index !in black && depth <= MAX_DEPTH {
      MembersGrow(g, height, black, index, 0, depth);
    }
  }

  lemma {:induction false} MembersGrow(g: Graph, height: map<nat, nat>, black: set<nat>, index: nat, k: nat, depth: nat)
    requires Descends(g, height) && index < |g| && k <= MemberCount(g[index])
    ensures var seen := VisitMembers(g, height, black, index, k, depth); seen.Some? ==> black <= seen.value
    decreases height[index], |g[index].members| + 1 - k
  {
    if k < MemberCount(g[index]) {
      var m := g[index].members[k];
      if ByValue(m) {
        assert Holds(g, index, m.target.index);
        VisitGrows(g, height, black, m.target.index, depth + 1);
      }
      var seen := VisitChild(g, height, black, index, k, depth);
      if seen.Some? {
        MembersGrow(g, height, seen.value, index, k + 1, depth);
      }
    }
  }

  /** A visit succeeds when the height fits what is left of the depth, or when all that is held by value
      has been laid out before. */
  lemma {:induction false} VisitFits(g: Graph, height: map<nat, nat>, black: set<nat>, index: nat, depth: nat)
    requires Descends(g, height) && index < |g| && depth <= MAX_DEPTH
    requires depth + height[index] <= MAX_DEPTH || forall j :: Holds(g, index, j) ==> j in black
    ensures Visit(g, height, black, index, depth).Some?
    decreases height[index], |g[index].members| + 2
  {
    if index !in black {
      MembersFit(g, height, black, index, 0, depth);
    }
  }

  lemma {:induction false} MembersFit(g: Graph, height: map<nat, nat>, black: set<nat>, index: nat, k: nat, depth: nat)
    requires Descends(g, height) && index < |g| && k <= MemberCount(g[index])
    requires depth + height[index] <= MAX_DEPTH || forall j :: Holds(g, index, j) ==> j in black
    ensures VisitMembers(g, height, black, index, k, depth).Some?
    decreases height[index], |g[index].members| + 1 - k
  {
    if k < MemberCount(g[index]) {
      var m := g[index].members[k];
      if ByValue(m) {
        assert Holds(g, index, m.target.index);
        if m.target.index !in black {
          VisitFits(g, height, black, m.target.index, depth + 1);
        }
        VisitGrows(g, height, black, m.target.index, depth + 1);
      }
      var seen := VisitChild(g, height, black, index, k, depth);
      MembersFit(g, height, seen.value, index, k + 1, depth);
    }
  }

  /** By-value nesting of at most 128 steps is visited in any order. */
  lemma {:induction false} ShallowIsVisited(g: Graph, height: map<nat, nat>, black: set<nat>, k: nat)
    requires Descends(g, height) && k <= |g| && forall i :: 0 <= i < |g| ==> height[i] <= 128
    ensures VisitAll(g, height, black, k).Some?
    decreases |g| - k
  {
    if k < |g| {
      VisitFits(g, height, black, k, 0);
      ShallowIsVisited(g, height, Visit(g, height, black, k, 0).value, k + 1);
    }
  }

  /** Every type is declared after those it holds by value. */
  ghost predicate PartsFirst(g: Graph) { forall i, j :: Holds(g, i, j) ==> j < i }

  /** In that order nesting of any depth is visited. */
  lemma {:induction false} PartsFirstIsVisited(g: Graph, height: map<nat, nat>, black: set<nat>, k: nat)
    requires Descends(g, height) && PartsFirst(g) && k <= |g| && forall j: nat :: j < k ==> j in black
    ensures VisitAll(g, height, black, k).Some?
    decreases |g| - k
  {
    if k < |g| {
      VisitFits(g, height, black, k, 0);
      VisitGrows(g, height, black, k, 0);
      var seen := Visit(g, height, black, k, 0).value;
      assert forall j: nat :: j < k + 1 ==> j in seen;
      PartsFirstIsVisited(g, height, seen, k + 1);
    }
  }

  /** Every type but the last holds the next one as its first member. */
  predicate IsChain(g: Graph) {
    forall i :: 0 <= i < |g| - 1 ==>
      Aggregate(g[i]) && g[i].members != [] && ByValue(g[i].members[0]) && g[i].members[0].target.index == i + 1
  }

  lemma {:induction false} ChainIsTooDeep(g: Graph, height: map<nat, nat>, black: set<nat>, i: nat, depth: nat)
    requires Descends(g, height) && IsChain(g) && depth <= MAX_DEPTH + 1 && i + (MAX_DEPTH + 1 - depth) < |g|
    requires forall j :: i <= j < |g| ==> j !in black
    ensures Visit(g, height, black, i, depth).None?
    decreases MAX_DEPTH + 1 - depth
  {
    if depth <= MAX_DEPTH {
      assert Holds(g, i, i + 1);
      ChainIsTooDeep(g, height, black, i + 1, depth + 1);
      assert VisitChild(g, height, black, i, 0, depth).None?;
    }
  }

  /** A chain of more than 129 types declared from the outside in is never visited to the end. */
  lemma ChainIsNotVisited(g: Graph, height: map<nat, nat>)
    requires Descends(g, height) && IsChain(g) && |g| > 129
    ensures VisitAll(g, height, {}, 0).None?
  {
    ChainIsTooDeep(g, height, {}, 0, 0);
  }

  /** Some plan, preferably one within the depth. */
  ghost function FindPlan(p: Platform, g: Graph): (plan: Option<Plan>)
    ensures plan.Some? ==> Works(p, g, plan.value) && Descends(g, plan.value.height)
    ensures plan.None? ==> forall other :: !Works(p, g, other)
    ensures Layable(p, g) ==> plan.Some? && VisitAll(g, plan.value.height, {}, 0).Some?
  {
    if Layable(p, g) then
      var known :| Works(p, g, known) && Shallow(g, known);
      HeightsDescend(p, g, known);
      ShallowIsVisited(g, known.height, {}, 0);
      Some(known)
    else if exists known :: Works(p, g, known) then
      var known :| Works(p, g, known);
      HeightsDescend(p, g, known);
      Some(known)
    else None
  }

  /** Heights only show that visits end; which types are visited does not depend on them. */
  lemma {:induction false} VisitIgnoresHeights(g: Graph, a: map<nat, nat>, b: map<nat, nat>, black: set<nat>,
                                               index: nat, depth: nat)
    requires Descends(g, a) && Descends(g, b) && index < |g|
    ensures Visit(g, a, black, index, depth) == Visit(g, b, black, index, depth)
    decreases a[index], |g[index].members| + 2
  {
    if index !in black && depth <= MAX_DEPTH {
      MembersIgnoreHeights(g, a, b, black, index, 0, depth);
    }
  }

  lemma {:induction false} MembersIgnoreHeights(g: Graph, a: map<nat, nat>, b: map<nat, nat>, black: set<nat>,
                                                index: nat, k: nat, depth: nat)
    requires Descends(g, a) && Descends(g, b) && index < |g| && k <= MemberCount(g[index])
    ensures VisitMembers(g, a, black, index, k, depth) == VisitMembers(g, b, black, index, k, depth)
    decreases a[index], |g[index].members| + 1 - k
  {
    if k < MemberCount(g[index]) {
      var m := g[index].members[k];
      if ByValue(m) {
        assert Holds(g, index, m.target.index);
        VisitIgnoresHeights(g, a, b, black, m.target.index, depth + 1);
      }
      var seen := VisitChild(g, a, black, index, k, depth);
      if seen.Some? {
        MembersIgnoreHeights(g, a, b, seen.value, index, k + 1, depth);
      }
    }
  }

  lemma {:induction false} OrderIgnoresHeights(g: Graph, a: map<nat, nat>, b: map<nat, nat>, black: set<nat>, k: nat)
    requires Descends(g, a) && Descends(g, b) && k <= |g|
    ensures VisitAll(g, a, black, k) == VisitAll(g, b, black, k)
    decreases |g| - k
  {
    if k < |g| {
      VisitIgnoresHeights(g, a, b, black, k, 0);
      var seen := Visit(g, a, black, k, 0);
      if seen.Some? {
        OrderIgnoresHeights(g, a, b, seen.value, k + 1);
      }
    }
  }

  // ----- recursion through pointers -----

  /** Members that differ at most in what an array or an optional member points to. */
  predicate SameButPointee(m: Member, n: Member) {
    && m.isArray == n.isArray && m.isOptional == n.isOptional && m.padding == n.padding
    && (if m.isArray || m.isOptional then m.target.Unknown? == n.target.Unknown? else m.target == n.target)
  }

  /** Two groups that differ at most in what arrays and optional members point to. */
  predicate Repointed(g: Graph, h: Graph) {
    && |g| == |h|
    && forall i :: 0 <= i < |g| ==>
         && g[i].kind == h[i].kind && g[i].memSize == h[i].memSize && g[i].membersMissing == h[i].membersMissing
         && |g[i].members| == |h[i].members|
         && forall k :: 0 <= k < |g[i].members| ==> SameButPointee(g[i].members[k], h[i].members[k])
  }

  lemma RepointedSlot(p: Platform, g: Graph, h: Graph, m: Member, n: Member, done: Layouts)
    requires Repointed(g, h) && SameButPointee(m, n) && !m.target.Unknown?
    requires ByValue(m) ==> m.target.index in done && m.target.index < |g|
    ensures SlotOf(p, g, m, done) == SlotOf(p, h, n, done)
  {
  }

  lemma RepointedPlace(p: Platform, t: Native, u: Native, w: Walk, m: Member, n: Member, slot: Slot)
    requires t.kind == u.kind && t.memSize == u.memSize && SameButPointee(m, n)
    ensures Place(p, t, w, m, slot) == Place(p, u, w, n, slot)
  {
    hide Pad, Wrapped;
  }

  lemma {:induction false} RepointedWalk(p: Platform, g: Graph, h: Graph, i: nat, n: nat, done: Layouts)
    requires Repointed(g, h) && i < |g| && n <= |g[i].members| && Known(g, i, n, done)
    ensures Known(h, i, n, done) && WalkTo(p, g, i, n, done) == WalkTo(p, h, i, n, done)
    decreases n
  {
    hide Place, SlotOf;
    if n > 0 {
      RepointedWalk(p, g, h, i, n - 1, done);
      var m, m' := g[i].members[n - 1], h[i].members[n - 1];
      assert SameButPointee(m, m');
      var before := WalkTo(p, g, i, n - 1, done);
      if before.Some? && !m.target.Unknown? {
        RepointedSlot(p, g, h, m, m', done);
        RepointedPlace(p, g[i], h[i], before.value, m, m', SlotOf(p, g, m, done));
      }
    }
  }

  lemma RepointedCompute(p: Platform, g: Graph, h: Graph, i: nat, done: Layouts)
    requires Repointed(g, h) && i < |g| && p.u32Align > 0
    requires Aggregate(g[i]) ==> Known(g, i, |g[i].members|, done)
    ensures Aggregate(h[i]) == Aggregate(g[i])
    ensures Aggregate(h[i]) ==> Known(h, i, |h[i].members|, done)
    ensures Compute(p, g, i, done) == Compute(p, h, i, done)
  {
    hide WalkTo, Known;
    assert |g[i].members| == |h[i].members|;
    if Aggregate(g[i]) {
      RepointedWalk(p, g, h, i, |g[i].members|, done);
    }
  }

  lemma RepointedHolds(g: Graph, h: Graph, i: nat, j: nat)
    requires Repointed(g, h) && Holds(h, i, j)
    ensures Holds(g, i, j)
  {
    var k :| 0 <= k < |h[i].members| && ByValue(h[i].members[k]) && h[i].members[k].target.index == j;
    assert SameButPointee(g[i].members[k], h[i].members[k]);
  }

  /** What arrays and optional members point to, types that hold them by value included, has no influence
      on whether and how a group is laid out. */
  lemma PointersDoNotMatter(p: Platform, g: Graph, h: Graph, plan: Plan)
    requires Repointed(g, h)
    ensures Works(p, g, plan) ==> Works(p, h, plan)
  {
    if Works(p, g, plan) {
      var done := plan.layouts;
      forall i | i in done
        ensures (Aggregate(h[i]) ==> Known(h, i, |h[i].members|, done)) && Compute(p, h, i, done) == Some(done[i])
      {
        RepointedCompute(p, g, h, i, done);
      }
      forall i, j | i in plan.height && Holds(h, i, j)
        ensures j in plan.height && plan.height[j] < plan.height[i]
      {
        RepointedHolds(g, h, i, j);
      }
    }
  }

  /** A group can be laid out if and only if the group in which pointers lead elsewhere can, in
      particular one in which none of them leads back; the layouts are the same. */
  lemma RecursionThroughPointersIsLaidOut(p: Platform, g: Graph, h: Graph)
    requires Repointed(g, h)
    ensures Layable(p, g) <==> Layable(p, h)
    ensures forall plan :: Works(p, g, plan) <==> Works(p, h, plan)
  {
    assert Repointed(h, g);
    forall plan
      ensures Works(p, g, plan) <==> Works(p, h, plan)
    {
      PointersDoNotMatter(p, g, h, plan);
      PointersDoNotMatter(p, h, g, plan);
    }
  }
}
