/** Laws of layouts: they are unique, by-value containment is acyclic, and they are sound C layouts. */
module TypeLayoutProofs {
  import opened TypeLayout

  /** The member loop reads only the layouts of the by-value members. */
  lemma {:induction false} WalkAgrees(p: Platform, g: Graph, i: nat, n: nat, a: Layouts, b: Layouts)
    requires i < |g| && n <= |g[i].members| && Known(g, i, n, a) && Known(g, i, n, b)
    requires forall k :: 0 <= k < n && ByValue(g[i].members[k]) ==>
               a[g[i].members[k].target.index] == b[g[i].members[k].target.index]
    ensures WalkTo(p, g, i, n, a) == WalkTo(p, g, i, n, b)
    decreases n
  {
    if n > 0 {
      WalkAgrees(p, g, i, n - 1, a, b);
    }
  }

  lemma ComputeAgrees(p: Platform, g: Graph, i: nat, a: Layouts, b: Layouts)
    requires i < |g| && p.u32Align > 0
    requires Aggregate(g[i]) ==> Known(g, i, |g[i].members|, a) && Known(g, i, |g[i].members|, b)
    requires forall j :: Holds(g, i, j) && j in a && j in b ==> a[j] == b[j]
    ensures Compute(p, g, i, a) == Compute(p, g, i, b)
  {
    if Aggregate(g[i]) {
      forall k | 0 <= k < |g[i].members| && ByValue(g[i].members[k])
        ensures a[g[i].members[k].target.index] == b[g[i].members[k].target.index]
      {
        assert Holds(g, i, g[i].members[k].target.index);
      }
      WalkAgrees(p, g, i, |g[i].members|, a, b);
    }
  }

  /** Layouts do not depend on the order in which types were visited: two consistent tables agree
      wherever both are defined, as soon as one of them is ranked. */
  lemma {:induction false} LayoutIsUnique(p: Platform, g: Graph, a: Layouts, rank: map<nat, nat>, b: Layouts, i: nat)
    requires Consistent(p, g, a) && Ranked(g, a, rank) && Consistent(p, g, b)
    requires i in a && i in b
    ensures a[i] == b[i]
    decreases rank[i]
  {
    forall j | Holds(g, i, j) && j in a && j in b
      ensures a[j] == b[j]
    {
      LayoutIsUnique(p, g, a, rank, b, j);
    }
    ComputeAgrees(p, g, i, a, b);
  }

  /** A walk along by-value containment. */
  ghost predicate Chain(g: Graph, path: seq<nat>) {
    path != [] && forall k :: 0 <= k < |path| - 1 ==> Holds(g, path[k], path[k + 1])
  }

  ghost predicate HasCycle(g: Graph) {
    exists path :: Chain(g, path) && |path| > 1 && path[0] == path[|path| - 1] && path[0] < |g|
  }

  lemma {:induction false} RankDescends(g: Graph, done: Layouts, rank: map<nat, nat>, path: seq<nat>)
    requires Ranked(g, done, rank) && Chain(g, path) && path[0] in rank
    ensures path[|path| - 1] in rank && rank[path[|path| - 1]] + |path| - 1 <= rank[path[0]]
    decreases |path|
  {
    if |path| > 1 {
      var rest := path[1..];
      assert Holds(g, path[0], path[1]);
      forall k | 0 <= k < |rest| - 1
        ensures Holds(g, rest[k], rest[k + 1])
      {
        assert Holds(g, path[k + 1], path[k + 1 + 1]);
      }
      RankDescends(g, done, rank, rest);
    }
  }

  /** A group in which every type has a ranked layout contains no by-value cycle. */
  lemma LaidOutIsAcyclic(g: Graph, done: Layouts, rank: map<nat, nat>)
    requires Ranked(g, done, rank)
    requires forall i :: 0 <= i < |g| ==> i in done
    ensures !HasCycle(g)
  {
    if HasCycle(g) {
      var path :| Chain(g, path) && |path| > 1 && path[0] == path[|path| - 1] && path[0] < |g|;
      RankDescends(g, done, rank, path);
    }
  }

  // ----- alignment arithmetic -----

  predicate Divides(a: nat, b: nat)
  {
    a > 0 && b % a == 0
  }

  lemma DividesSum(a: nat, x: nat, y: nat)
    requires Divides(a, x) && Divides(a, y)
    ensures Divides(a, x + y)
  {
    assert x == a * (x / a) && y == a * (y / a);
    MultipleIsDivided(a, x / a + y / a);
    assert a * (x / a + y / a) == x + y;
  }

  lemma MultiplesAreApart(a: nat, d: int)
    requires a > 0
    ensures d >= 1 ==> a * d >= a
    ensures d <= -1 ==> a * d < 0
  {
  }

  lemma MultipleIsDivided(a: nat, q: nat)
    requires a > 0
    ensures Divides(a, a * q)
  {
    var r := (a * q) % a;
    assert a * q == a * ((a * q) / a) + r;
    var d := q - (a * q) / a;
    MultiplesAreApart(a, d);
    assert r == a * d;
  }

  lemma DividesTrans(a: nat, b: nat, x: nat)
    requires Divides(a, b) && Divides(b, x)
    ensures Divides(a, x)
  {
    assert x == b * (x / b) && b == a * (b / a);
    var q := (b / a) * (x / b);
    assert x == a * q by {
      assert a * ((b / a) * (x / b)) == (a * (b / a)) * (x / b);
    }
    MultipleIsDivided(a, q);
  }

  lemma PadRoundsUp(offset: nat, alignment: nat)
    requires alignment > 0
    ensures Pad(offset, alignment) < alignment
    ensures Divides(alignment, offset + Pad(offset, alignment))
  {
    var r := offset % alignment;
    if r == 0 {
      assert alignment % alignment == 0;
    } else {
      assert (alignment - r) % alignment == alignment - r;
      var q := offset / alignment;
      assert offset + (alignment - r) == alignment * (q + 1);
      MultipleIsDivided(alignment, q + 1);
    }
  }

  function Pow2(k: nat): nat { if k == 0 then 1 else 2 * Pow2(k - 1) }

  ghost predicate IsPow2(n: nat) { exists k :: n == Pow2(k) }

  lemma {:induction false} Pow2Divides(j: nat, k: nat)
    requires Pow2(j) <= Pow2(k)
    ensures Divides(Pow2(j), Pow2(k))
    decreases k
  {
    if Pow2(j) == Pow2(k) {
      Pow2Positive(j);
      assert Pow2(k) % Pow2(j) == 0;
    } else {
      assert k > 0 by { Pow2Positive(j); }
      Pow2Gap(j, k);
      Pow2Divides(j, k - 1);
      DividesSum(Pow2(j), Pow2(k - 1), Pow2(k - 1));
    }
  }

  lemma {:induction false} Pow2Positive(k: nat)
    ensures Pow2(k) >= 1
  {
    if k > 0 {
      Pow2Positive(k - 1);
    }
  }

  lemma {:induction false} Pow2Gap(j: nat, k: nat)
    requires Pow2(j) < Pow2(k) && k > 0
    ensures Pow2(j) <= Pow2(k - 1)
    decreases j, k
  {
    Pow2Positive(k - 1);
    if j > 0 && k > 1 {
      Pow2Gap(j - 1, k - 1);
    } else if j > 0 {
      Pow2Positive(j - 1);
    }
  }
}
