/** The list of custom type arrays handed to a codec call, src/opcua_codec_impl.h: a cycle check by a
    slow and a fast pointer, then a copy of the list. */
module CustomTypes {
  import opened Common

  /** One array of the linked list. A type is the native descriptor it validates to, if it is valid;
      `missing` is a null or sentinel pointer where types are announced. */
  datatype Node = Node(next: Option<nat>, types: seq<Option<nat>>, missing: bool)

  /** The memory the list lives in; a pointer is an index. */
  type Heap = seq<Node>

  datatype Status = Good | InvalidArgument

  predicate Pointing(h: Heap, p: Option<nat>) { p.Some? ==> p.value < |h| }

  predicate WellFormed(h: Heap) { forall i :: 0 <= i < |h| ==> Pointing(h, h[i].next) }

  function Next(h: Heap, p: Option<nat>): (q: Option<nat>)
    requires WellFormed(h) && Pointing(h, p)
    ensures Pointing(h, q)
  {
    if p.None? then None else h[p.value].next
  }

  /** The pointer after `k` steps along the list. */
  function At(h: Heap, p: Option<nat>, k: nat): (q: Option<nat>)
    requires WellFormed(h) && Pointing(h, p)
    ensures Pointing(h, q)
  {
    if k == 0 then p else Next(h, At(h, p, k - 1))
  }

  /** Following the list never ends. */
  ghost predicate Endless(h: Heap, p: Option<nat>)
    requires WellFormed(h) && Pointing(h, p)
  {
    forall k: nat :: At(h, p, k).Some?
  }

  // ----- walking -----

  lemma {:induction false} EndStays(h: Heap, p: Option<nat>, j: nat, k: nat)
    requires WellFormed(h) && Pointing(h, p) && j <= k && At(h, p, j).None?
    ensures At(h, p, k).None?
    decreases k
  {
    if j < k {
      EndStays(h, p, j, k - 1);
    }
  }

  /** From equal pointers on, the walk repeats. */
  lemma {:induction false} Shifts(h: Heap, p: Option<nat>, i: nat, j: nat, d: nat)
    requires WellFormed(h) && Pointing(h, p) && At(h, p, i) == At(h, p, j)
    ensures At(h, p, i + d) == At(h, p, j + d)
    decreases d
  {
    if d > 0 {
      Shifts(h, p, i, j, d - 1);
    }
  }

  lemma {:induction false} Repeats(h: Heap, p: Option<nat>, i: nat, lap: nat, laps: nat)
    requires WellFormed(h) && Pointing(h, p) && At(h, p, i) == At(h, p, i + lap)
    ensures At(h, p, i) == At(h, p, i + laps * lap)
    decreases laps
  {
    if laps > 0 {
      Repeats(h, p, i, lap, laps - 1);
      Shifts(h, p, i, i + (laps - 1) * lap, lap);
      assert i + (laps - 1) * lap + lap == i + laps * lap;
    }
  }

  /** A pointer met again, not at the end, means the list never ends. */
  lemma MeetingIsEndless(h: Heap, p: Option<nat>, i: nat, lap: nat)
    requires WellFormed(h) && Pointing(h, p) && lap > 0
    requires At(h, p, i).Some? && At(h, p, i) == At(h, p, i + lap)
    ensures Endless(h, p)
  {
    forall k: nat
      ensures At(h, p, k).Some?
    {
      Repeats(h, p, i, lap, k);
      assert i + k * lap >= k by {
        assert k * lap >= k;
      }
      if At(h, p, k).None? {
        EndStays(h, p, k, i + k * lap);
      }
    }
  }

  // ----- the two pointers must meet -----

  ghost function Below(n: nat): (s: set<nat>)
    ensures forall i: nat :: i in s <==> i < n
    ensures |s| == n
  {
    if n == 0 then {} else Below(n - 1) + {n - 1}
  }

  /** The nodes met in the first `n` steps. */
  ghost function Met(h: Heap, p: Option<nat>, n: nat): (s: set<nat>)
    requires WellFormed(h) && Pointing(h, p)
    requires forall k :: 0 <= k < n ==> At(h, p, k).Some?
    ensures forall x :: x in s ==> x < |h|
  {
    if n == 0 then {} else Met(h, p, n - 1) + {At(h, p, n - 1).value}
  }

  lemma SubsetSize(a: set<nat>, b: set<nat>)
    requires a <= b
    ensures |a| <= |b|
  {
    assert b == a + (b - a);
  }

  lemma {:induction false} NotMet(h: Heap, p: Option<nat>, n: nat, x: nat)
    requires WellFormed(h) && Pointing(h, p)
    requires forall k :: 0 <= k < n ==> At(h, p, k).Some? && At(h, p, k) != Some(x)
    ensures x !in Met(h, p, n)
  {
    if n > 0 {
      NotMet(h, p, n - 1, x);
    }
  }

  /** A walk without repetition meets as many nodes as it takes steps. */
  lemma {:induction false} DistinctSize(h: Heap, p: Option<nat>, n: nat)
    requires WellFormed(h) && Pointing(h, p)
    requires forall k :: 0 <= k < n ==> At(h, p, k).Some?
    requires forall i, j :: 0 <= i < j < n ==> At(h, p, i) != At(h, p, j)
    ensures |Met(h, p, n)| == n
  {
    if n > 0 {
      DistinctSize(h, p, n - 1);
      NotMet(h, p, n - 1, At(h, p, n - 1).value);
    }
  }

  /** More steps than nodes: some node was met twice. */
  lemma Pigeonhole(h: Heap, p: Option<nat>) returns (i: nat, j: nat)
    requires WellFormed(h) && Pointing(h, p)
    requires forall k :: 0 <= k <= |h| ==> At(h, p, k).Some?
    ensures i < j <= |h| && At(h, p, i) == At(h, p, j)
  {
    var n := |h| + 1;
    if forall i, j :: 0 <= i < j < n ==> At(h, p, i) != At(h, p, j) {
      DistinctSize(h, p, n);
      SubsetSize(Met(h, p, n), Below(|h|));
      assert false;
    }
    i, j :| 0 <= i < j < n && At(h, p, i) == At(h, p, j);
  }

  /** The least multiple of `lap` from `i` on, and positive. */
  lemma NextMultiple(i: nat, lap: nat) returns (m: nat, q: nat)
    requires lap > 0
    ensures m == q * lap && m > 0 && i <= m <= i + lap
  {
    q := i / lap + 1;
    m := q * lap;
    assert i == lap * (i / lap) + i % lap;
  }

  lemma MustMeet(h: Heap, p: Option<nat>) returns (m: nat)
    requires WellFormed(h) && Pointing(h, p)
    requires forall k :: 0 <= k <= |h| ==> At(h, p, k).Some?
    ensures 1 <= m <= |h| && At(h, p, m) == At(h, p, 2 * m)
  {
    var i, j := Pigeonhole(h, p);
    var lap := j - i;
    var q;
    m, q := NextMultiple(i, lap);
    Shifts(h, p, i, j, m - i);
    Repeats(h, p, m, lap, q);
  }

  /** The cycle check: terminates on every list and reports exactly the ones that never end. */
  method FindCycle(h: Heap, source: Option<nat>) returns (cyclic: bool)
    requires WellFormed(h) && Pointing(h, source)
    ensures cyclic <==> Endless(h, source)
  {
    var slow, fast := source, source;
    ghost var t := 0;
    while fast.Some? && Next(h, fast).Some?
      invariant Pointing(h, slow) && Pointing(h, fast) && slow == At(h, source, t) && fast == At(h, source, 2 * t)
      invariant forall m :: 1 <= m <= t ==> At(h, source, m) != At(h, source, 2 * m)
      invariant t <= |h|
      decreases |h| - t
    {
      StillBounded(h, source, t);
      slow := Next(h, slow);
      fast := Next(h, Next(h, fast));
      t := t + 1;
      assert At(h, source, 2 * t) == Next(h, At(h, source, 2 * t - 1));
      if slow == fast {
        NotEnded(h, source, t, 2 * t - 1);
        MeetingIsEndless(h, source, t, t);
        return true;
      }
    }
    assert At(h, source, 2 * t + 1).None?;
    return false;
  }

  /** As long as the pointers have not met and the fast one has not ended, fewer steps than nodes were
      taken. */
  lemma StillBounded(h: Heap, p: Option<nat>, t: nat)
    requires WellFormed(h) && Pointing(h, p) && At(h, p, 2 * t).Some?
    requires forall m :: 1 <= m <= t ==> At(h, p, m) != At(h, p, 2 * m)
    ensures t < |h|
  {
    if t >= |h| {
      forall k | 0 <= k <= |h|
        ensures At(h, p, k).Some?
      {
        if At(h, p, k).None? {
          EndStays(h, p, k, 2 * t);
        }
      }
      var m := MustMeet(h, p);
      assert false;
    }
  }

  lemma NotEnded(h: Heap, p: Option<nat>, j: nat, k: nat)
    requires WellFormed(h) && Pointing(h, p) && j <= k && At(h, p, k).Some?
    ensures At(h, p, j).Some?
  {
    if At(h, p, j).None? {
      EndStays(h, p, j, k);
    }
  }

  // ----- the copy -----

  /** `maxTypes` is the largest count whose copy does not overflow size_t. */
  predicate NodeGood(n: Node, maxTypes: nat) {
    && !(n.types != [] && n.missing)
    && |n.types| <= maxTypes
    && forall k :: 0 <= k < |n.types| ==> n.types[k].Some?
  }

  /** The native descriptors of an array. */
  function Natives(types: seq<Option<nat>>): (r: seq<nat>)
    requires forall k :: 0 <= k < |types| ==> types[k].Some?
    ensures |r| == |types| && forall k :: 0 <= k < |r| ==> r[k] == types[k].value
  {
    seq(|types|, k requires 0 <= k < |types| => types[k].value)
  }

  /** The list has exactly `n` nodes. */
  ghost predicate HasLength(h: Heap, p: Option<nat>, n: nat)
    requires WellFormed(h) && Pointing(h, p)
  {
    At(h, p, n).None? && forall k :: 0 <= k < n ==> At(h, p, k).Some?
  }

  lemma {:induction false} FindLength(h: Heap, p: Option<nat>, bound: nat) returns (n: nat)
    requires WellFormed(h) && Pointing(h, p) && At(h, p, bound).None?
    ensures HasLength(h, p, n)
    decreases bound
  {
    if bound > 0 && At(h, p, bound - 1).None? {
      n := FindLength(h, p, bound - 1);
    } else {
      forall k | 0 <= k < bound
        ensures At(h, p, k).Some?
      {
        NotEnded(h, p, k, bound - 1);
      }
      n := bound;
    }
  }

  /** `copies` mirrors the first nodes of the list. */
  ghost predicate Mirrors(h: Heap, p: Option<nat>, maxTypes: nat, copies: seq<seq<nat>>)
    requires WellFormed(h) && Pointing(h, p)
  {
    forall k :: 0 <= k < |copies| ==>
      && At(h, p, k).Some? && NodeGood(h[At(h, p, k).value], maxTypes)
      && copies[k] == Natives(h[At(h, p, k).value].types)
  }

  method CopyTypes(n: Node, maxTypes: nat) returns (ok: bool, copy: seq<nat>)
    requires |n.types| <= maxTypes && !(n.types != [] && n.missing)
    ensures ok <==> NodeGood(n, maxTypes)
    ensures ok ==> copy == Natives(n.types)
  {
    copy := [];
    for i := 0 to |n.types|
      invariant |copy| == i && forall k :: 0 <= k < i ==> n.types[k] == Some(copy[k])
    {
      if n.types[i].None? {
        return false, copy;
      }
      copy := copy + [n.types[i].value];
    }
    return true, copy;
  }

  /** The whole operation: it succeeds exactly on lists that end and whose every node is good, and then
      the copy has the list's length and, node by node, its natives. */
  method Convert(h: Heap, source: Option<nat>, maxTypes: nat) returns (status: Status, copies: seq<seq<nat>>)
    requires WellFormed(h) && Pointing(h, source)
    ensures status == Good <==>
            exists n: nat ::
              HasLength(h, source, n) && forall k :: 0 <= k < n ==> NodeGood(h[At(h, source, k).value], maxTypes)
    ensures status == Good ==> HasLength(h, source, |copies|) && Mirrors(h, source, maxTypes, copies)
  {
    copies := [];
    var cyclic := FindCycle(h, source);
    if cyclic {
      return InvalidArgument, copies;
    }
    ghost var bound: nat :| At(h, source, bound).None?;
    ghost var n := FindLength(h, source, bound);
    LengthIsUnique(h, source, n);
    var p, i := source, 0;
    while p.Some?
      invariant Pointing(h, p) && i <= n && p == At(h, source, i)
      invariant |copies| == i && Mirrors(h, source, maxTypes, copies)
      decreases n - i
    {
      var node := h[p.value];
      if (node.types != [] && node.missing) || |node.types| > maxTypes {
        return InvalidArgument, copies;
      }
      var ok, copy := CopyTypes(node, maxTypes);
      if !ok {
        return InvalidArgument, copies;
      }
      copies := copies + [copy];
      p := node.next;
      i := i + 1;
    }
    status := Good;
  }

  lemma LengthIsUnique(h: Heap, p: Option<nat>, n: nat)
    requires WellFormed(h) && Pointing(h, p) && HasLength(h, p, n)
    ensures forall m: nat :: HasLength(h, p, m) ==> m == n
  {
  }
}
