/** Depth-bounded structural equality of native types, src/opcua_dynamic_internal.h. */
module TypeEquality {
  import opened Common

  /** A type pointer. */
  type Pointer = Option<nat>

  /** For an enumeration `target` holds a value, not a type. */
  datatype Member = Member(padding: nat, isArray: bool, isOptional: bool, target: Pointer)

  /** Everything compared about a type itself; the three node identifiers are abstract tokens. */
  datatype Head = Head(memSize: nat, isEnum: bool, kind: nat, pointerFree: bool, overlayable: bool,
                       typeId: nat, binaryId: nat, xmlId: nat, membersSize: nat)

  datatype Native = Native(head: Head, membersMissing: bool, members: seq<Member>)

  type Graph = seq<Native>

  const MAX_DEPTH: nat := 128

  /** The member count is right and member pointers lead to types of the graph. */
  predicate WellFormed(g: Graph) {
    forall i :: 0 <= i < |g| ==>
      && g[i].head.membersSize == |g[i].members|
      && (!g[i].head.isEnum ==> forall k :: 0 <= k < |g[i].members| ==> Pointing(g, g[i].members[k].target))
  }

  predicate Pointing(g: Graph, p: Pointer) { p.Some? ==> p.value < |g| }

  predicate SameFlags(a: Member, b: Member) {
    a.padding == b.padding && a.isArray == b.isArray && a.isOptional == b.isOptional
  }

  function Left(depth: nat): nat { if depth > MAX_DEPTH then 0 else MAX_DEPTH + 1 - depth }

  /** What the comparison decides. */
  predicate Equal(g: Graph, a: Pointer, b: Pointer, depth: nat)
    requires WellFormed(g) && Pointing(g, a) && Pointing(g, b)
    decreases Left(depth)
  {
    a == b ||
    (a.Some? && b.Some? && depth <= MAX_DEPTH &&
     var x, y := g[a.value], g[b.value];
     && x.head == y.head
     && (x.members != [] ==> !x.membersMissing && !y.membersMissing)
     && forall i :: 0 <= i < |x.members| ==>
          && SameFlags(x.members[i], y.members[i])
          && if x.head.isEnum then x.members[i].target == y.members[i].target
             else (x.members[i].target == a && y.members[i].target == b) ||
                  Equal(g, x.members[i].target, y.members[i].target, depth + 1))
  }

  /** The recursive comparison with its member loop. */
  method Compare(g: Graph, a: Pointer, b: Pointer, depth: nat) returns (equal: bool)
    requires WellFormed(g) && Pointing(g, a) && Pointing(g, b)
    ensures equal <==> Equal(g, a, b, depth)
    decreases Left(depth)
  {
    if a == b {
      return true;
    }
    if a.None? || b.None? || depth > MAX_DEPTH || g[a.value].head != g[b.value].head {
      return false;
    }
    var x, y := g[a.value], g[b.value];
    for i := 0 to |x.members|
      invariant x.members != [] && i > 0 ==> !x.membersMissing && !y.membersMissing
      invariant forall k :: 0 <= k < i ==>
                  && SameFlags(x.members[k], y.members[k])
                  && if x.head.isEnum then x.members[k].target == y.members[k].target
                     else (x.members[k].target == a && y.members[k].target == b) ||
                          Equal(g, x.members[k].target, y.members[k].target, depth + 1)
    {
      if x.membersMissing || y.membersMissing {
        return false;
      }
      var m, n := x.members[i], y.members[i];
      if !SameFlags(m, n) {
        return false;
      }
      if x.head.isEnum {
        if m.target != n.target {
          return false;
        }
      } else if !(m.target == a && n.target == b) {
        var same := Compare(g, m.target, n.target, depth + 1);
        if !same {
          return false;
        }
      }
    }
    return true;
  }

  lemma {:induction false} EqualIsSymmetric(g: Graph, a: Pointer, b: Pointer, depth: nat)
    requires WellFormed(g) && Pointing(g, a) && Pointing(g, b)
    ensures Equal(g, a, b, depth) == Equal(g, b, a, depth)
    decreases Left(depth)
  {
    if a != b && a.Some? && b.Some? && depth <= MAX_DEPTH &&
       g[a.value].head == g[b.value].head && !g[a.value].head.isEnum {
      var x, y := g[a.value], g[b.value];
      forall i | 0 <= i < |x.members|
        ensures Equal(g, x.members[i].target, y.members[i].target, depth + 1)
             == Equal(g, y.members[i].target, x.members[i].target, depth + 1)
      {
        EqualIsSymmetric(g, x.members[i].target, y.members[i].target, depth + 1);
      }
    }
  }

  // ----- paths -----

  /** The type reached by following member indices, if they can be followed. */
  function Follow(g: Graph, a: Pointer, path: seq<nat>): Option<Pointer>
    requires WellFormed(g) && Pointing(g, a)
    decreases |path|
  {
    if path == [] then Some(a)
    else if a.None? || g[a.value].head.isEnum || path[0] >= |g[a.value].members| then None
    else Follow(g, g[a.value].members[path[0]].target, path[1..])
  }

  /** Two types agree in everything but what their members' types are; the fields are written out. */
  predicate Alike(g: Graph, a: Pointer, b: Pointer)
    requires Pointing(g, a) && Pointing(g, b)
  {
    a == b ||
    (a.Some? && b.Some? &&
     var x, y := g[a.value], g[b.value];
     && x.head.memSize == y.head.memSize && x.head.kind == y.head.kind && x.head.isEnum == y.head.isEnum
     && x.head.pointerFree == y.head.pointerFree && x.head.overlayable == y.head.overlayable
     && x.head.typeId == y.head.typeId && x.head.binaryId == y.head.binaryId && x.head.xmlId == y.head.xmlId
     && x.head.membersSize == y.head.membersSize && |x.members| == |y.members|
     && (forall i :: 0 <= i < |x.members| ==>
           && x.members[i].padding == y.members[i].padding
           && x.members[i].isArray == y.members[i].isArray
           && x.members[i].isOptional == y.members[i].isOptional)
     && (x.head.isEnum ==> forall i :: 0 <= i < |x.members| ==> x.members[i].target == y.members[i].target))
  }

  lemma {:induction false} FollowPoints(g: Graph, a: Pointer, path: seq<nat>)
    requires WellFormed(g) && Pointing(g, a)
    ensures Follow(g, a, path).Some? ==> Pointing(g, Follow(g, a, path).value)
    decreases |path|
  {
    if path != [] && a.Some? && !g[a.value].head.isEnum && path[0] < |g[a.value].members| {
      FollowPoints(g, g[a.value].members[path[0]].target, path[1..]);
    }
  }

  /** Soundness, with no bound on the path: when the comparison says yes, every path of members can be
      followed from both types or from neither, and reaches types that agree in kind, size, flags,
      identifiers and member shape. */
  lemma {:induction false} EqualIsSound(g: Graph, a: Pointer, b: Pointer, depth: nat, path: seq<nat>)
    requires WellFormed(g) && Pointing(g, a) && Pointing(g, b) && Equal(g, a, b, depth)
    ensures var x, y := Follow(g, a, path), Follow(g, b, path);
            && (x.Some? <==> y.Some?)
            && (x.Some? ==> Pointing(g, x.value) && Pointing(g, y.value) && Alike(g, x.value, y.value))
    decreases |path|
  {
    FollowPoints(g, a, path);
    FollowPoints(g, b, path);
    if path != [] && a != b && !g[a.value].head.isEnum && path[0] < |g[a.value].members| {
      var x, y := g[a.value].members[path[0]], g[b.value].members[path[0]];
      if x.target == a && y.target == b {
        EqualIsSound(g, a, b, depth, path[1..]);
      } else {
        EqualIsSound(g, x.target, y.target, depth + 1, path[1..]);
      }
    }
  }

  // ----- exactly when -----

  /** The comparison takes this path: it meets no pair of identical pointers on the way and does not
      follow a member that leads both types back to themselves. */
  predicate Explores(g: Graph, a: Pointer, b: Pointer, path: seq<nat>)
    requires WellFormed(g) && Pointing(g, a) && Pointing(g, b)
    decreases |path|
  {
    path == [] ||
    (a != b && a.Some? && b.Some? &&
     var x, y := g[a.value], g[b.value];
     && !x.head.isEnum && !y.head.isEnum && path[0] < |x.members| && path[0] < |y.members|
     && !(x.members[path[0]].target == a && y.members[path[0]].target == b)
     && Explores(g, x.members[path[0]].target, y.members[path[0]].target, path[1..]))
  }

  /** Nothing to object to in this pair of types alone, at this depth. */
  predicate Passes(g: Graph, a: Pointer, b: Pointer, depth: nat)
    requires WellFormed(g) && Pointing(g, a) && Pointing(g, b)
  {
    a == b ||
    (a.Some? && b.Some? && depth <= MAX_DEPTH && Alike(g, a, b) &&
     var x, y := g[a.value], g[b.value];
     (x.members != [] ==> !x.membersMissing && !y.membersMissing))
  }

  function End(g: Graph, a: Pointer, b: Pointer, path: seq<nat>): (Pointer, Pointer)
    requires WellFormed(g) && Pointing(g, a) && Pointing(g, b) && Explores(g, a, b, path)
    ensures var (x, y) := End(g, a, b, path); Pointing(g, x) && Pointing(g, y)
    decreases |path|
  {
    if path == [] then (a, b)
    else End(g, g[a.value].members[path[0]].target, g[b.value].members[path[0]].target, path[1..])
  }

  lemma {:induction false} EqualPasses(g: Graph, a: Pointer, b: Pointer, depth: nat, path: seq<nat>)
    requires WellFormed(g) && Pointing(g, a) && Pointing(g, b) && Equal(g, a, b, depth) && Explores(g, a, b, path)
    ensures var (x, y) := End(g, a, b, path); Passes(g, x, y, depth + |path|)
    decreases |path|
  {
    if path != [] {
      EqualPasses(g, g[a.value].members[path[0]].target, g[b.value].members[path[0]].target, depth + 1, path[1..]);
    }
  }

  lemma {:induction false} UnequalObjects(g: Graph, a: Pointer, b: Pointer, depth: nat) returns (path: seq<nat>)
    requires WellFormed(g) && Pointing(g, a) && Pointing(g, b) && !Equal(g, a, b, depth)
    ensures Explores(g, a, b, path)
    ensures var (x, y) := End(g, a, b, path); !Passes(g, x, y, depth + |path|)
    decreases Left(depth)
  {
    path := [];
    if Passes(g, a, b, depth) {
      var x, y := g[a.value], g[b.value];
      var i :| 0 <= i < |x.members| && !(x.members[i].target == a && y.members[i].target == b)
               && !Equal(g, x.members[i].target, y.members[i].target, depth + 1);
      var rest := UnequalObjects(g, x.members[i].target, y.members[i].target, depth + 1);
      path := [i] + rest;
      assert path[1..] == rest;
    }
  }

  /** The comparison says yes exactly when every pair of types it explores passes on its own. In
      particular it says no whenever it can explore past the depth bound without meeting identical
      pointers, however equal the types are. */
  lemma EqualIffAllPass(g: Graph, a: Pointer, b: Pointer, depth: nat)
    requires WellFormed(g) && Pointing(g, a) && Pointing(g, b)
    ensures Equal(g, a, b, depth) <==>
            forall path :: Explores(g, a, b, path) ==>
              var (x, y) := End(g, a, b, path); Passes(g, x, y, depth + |path|)
  {
    if Equal(g, a, b, depth) {
      forall path | Explores(g, a, b, path)
        ensures var (x, y) := End(g, a, b, path); Passes(g, x, y, depth + |path|)
      {
        EqualPasses(g, a, b, depth, path);
      }
    } else {
      var path := UnequalObjects(g, a, b, depth);
    }
  }

  lemma {:induction false} EndFollows(g: Graph, a: Pointer, b: Pointer, path: seq<nat>)
    requires WellFormed(g) && Pointing(g, a) && Pointing(g, b) && Explores(g, a, b, path)
    ensures var (x, y) := End(g, a, b, path); Follow(g, a, path) == Some(x) && Follow(g, b, path) == Some(y)
    decreases |path|
  {
    if path != [] {
      EndFollows(g, g[a.value].members[path[0]].target, g[b.value].members[path[0]].target, path[1..]);
    }
  }

  /** No path of members tells the two types apart: it can be followed from both or from neither, and there
      is nothing to object to where it leads. */
  ghost predicate Indistinct(g: Graph, a: Pointer, b: Pointer)
    requires WellFormed(g) && Pointing(g, a) && Pointing(g, b)
  {
    forall path ::
      var x, y := Follow(g, a, path), Follow(g, b, path);
      && (x.Some? <==> y.Some?)
      && (x.Some? ==> Pointing(g, x.value) && Pointing(g, y.value) && Passes(g, x.value, y.value, 0))
  }

  /** Types that no path tells apart are accepted if and only if the comparison never gets past the depth
      bound on its way to two different pointers. */
  lemma IndistinctIsEqualIffShallow(g: Graph, a: Pointer, b: Pointer, depth: nat)
    requires WellFormed(g) && Pointing(g, a) && Pointing(g, b) && Indistinct(g, a, b)
    ensures Equal(g, a, b, depth) <==>
            forall path :: Explores(g, a, b, path) && depth + |path| > 128 ==>
              var (x, y) := End(g, a, b, path); x == y
  {
    hide Equal, Explores, Follow, Alike;
    EqualIffAllPass(g, a, b, depth);
    forall path | Explores(g, a, b, path)
      ensures var (x, y) := End(g, a, b, path);
              Passes(g, x, y, depth + |path|) <==> x == y || depth + |path| <= MAX_DEPTH
    {
      EndFollows(g, a, b, path);
    }
  }

  // ----- a limit of the comparison -----

  /** Two structurally identical copies of a pair of mutually recursive types. */
  const COPIES: Graph := [Ref(1), Ref(0), Ref(3), Ref(2)]

  function Ref(target: nat): Native {
    Native(Head(8, false, 0, false, false, 0, 0, 0, 1), false, [Member(0, true, false, Some(target))])
  }

  lemma {:induction false} CopiesDiffer(k: nat, depth: nat)
    requires k < 2
    ensures WellFormed(COPIES) && !Equal(COPIES, Some(k), Some(k + 2), depth)
    decreases Left(depth)
  {
    assert COPIES[k] == Ref(1 - k) && COPIES[k + 2] == Ref(3 - k);
    if depth <= MAX_DEPTH {
      assert COPIES[k].members[0].target == Some(1 - k) && COPIES[k + 2].members[0].target == Some(1 - k + 2);
      CopiesDiffer(1 - k, depth + 1);
    }
  }

  lemma {:induction false} CopiesAlike(k: nat, path: seq<nat>)
    requires k < 2
    ensures WellFormed(COPIES)
    ensures var x, y := Follow(COPIES, Some(k), path), Follow(COPIES, Some(k + 2), path);
            && (x.Some? <==> y.Some?)
            && (x.Some? ==> Pointing(COPIES, x.value) && Pointing(COPIES, y.value) && Alike(COPIES, x.value, y.value))
    decreases |path|
  {
    if path != [] && path[0] == 0 {
      CopiesAlike(1 - k, path[1..]);
    }
  }
}
