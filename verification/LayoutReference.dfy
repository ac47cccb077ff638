/** The layout rule of C, stated on its own: every member at the least aligned offset behind the one before,
    the whole rounded up to the largest alignment. Computed layouts are exactly these. */
module LayoutReference {
  import opened Common
  import opened TypeLayout
  import opened TypeLayoutProofs
  import opened LayoutSoundness

  /** The least multiple of `a` that is not below `x`. */
  function RoundUp(x: nat, a: nat): nat { if a == 0 then x else a * ((x + a - 1) / a) }

  /** The room one member needs: two words for an array, a pointer for an optional member, or its type. */
  function Needs(p: Platform, g: Graph, m: Member, done: Layouts): Slot {
    var word := p.sizeBytes + p.pointerBytes;
    if m.isArray then Slot(word, if p.sizeAlign < p.pointerAlign then p.pointerAlign else p.sizeAlign, word)
    else if m.isOptional then Slot(p.pointerBytes, p.pointerAlign, p.pointerBytes)
    else
      match m.target
      case Own(j) => if j in done && j < |g| then Slot(done[j].size, done[j].alignment, g[j].memSize) else Slot(0, 0, 0)
      case Foreign(e) => Slot(e.size, e.alignment, e.memSize)
      case Unknown => Slot(0, 0, 0)
  }

  function NeedsAll(p: Platform, g: Graph, i: nat, done: Layouts): (slots: seq<Slot>)
    requires i < |g|
    ensures |slots| == |g[i].members|
  {
    seq(|g[i].members|, k requires 0 <= k < |g[i].members| => Needs(p, g, g[i].members[k], done))
  }

  // ----- the public record -----

  /** Where member `k` starts. */
  function StartOf(p: Platform, union: bool, slots: seq<Slot>, k: nat): nat
    requires k < |slots|
    decreases k, 1
  {
    RoundUp(if union then p.u32Bytes else EndOf(p, union, slots, k), slots[k].alignment)
  }

  /** Where the first `n` members end. */
  function EndOf(p: Platform, union: bool, slots: seq<Slot>, n: nat): nat
    requires n <= |slots|
    decreases n, 0
  {
    if n == 0 then if union then p.u32Bytes else 0
    else
      var end := StartOf(p, union, slots, n - 1) + slots[n - 1].size;
      if union then Max(EndOf(p, union, slots, n - 1), end) else end
  }

  /** The largest alignment among the first `n` members and, in a union, the discriminator. */
  function AlignOf(p: Platform, union: bool, slots: seq<Slot>, n: nat): nat
    requires n <= |slots|
  {
    if n == 0 then if union then p.u32Align else 1
    else Max(AlignOf(p, union, slots, n - 1), slots[n - 1].alignment)
  }

  // ----- the native record -----

  /** Padding and members one behind the other; in a union each at its own padding. */
  function NativeStart(t: Native, slots: seq<Slot>, k: nat): nat
    requires |slots| == |t.members| && k < |slots|
  {
    t.members[k].padding +
    if t.kind.Union? || k == 0 then 0 else NativeStart(t, slots, k - 1) + slots[k - 1].nativeSize
  }

  function PlacedAt(p: Platform, t: Native, slots: seq<Slot>, k: nat): Placed
    requires |slots| == |t.members| && k < |slots|
  {
    var c, native := StartOf(p, t.kind.Union?, slots, k), NativeStart(t, slots, k);
    if t.members[k].isArray then Placed(c, c + p.sizeBytes, native, native + p.sizeBytes)
    else Placed(c, c, native, native)
  }

  /** The first `n` members have known types of some size and lie inside the native record. */
  predicate Acceptable(t: Native, slots: seq<Slot>, n: nat)
    requires |slots| == |t.members| && n <= |slots|
  {
    forall k :: 0 <= k < n ==>
      && !t.members[k].target.Unknown? && slots[k].size > 0 && slots[k].alignment > 0
      && NativeStart(t, slots, k) + slots[k].nativeSize <= t.memSize
  }

  function PlacedTo(p: Platform, t: Native, slots: seq<Slot>, n: nat): (r: seq<Placed>)
    requires |slots| == |t.members| && n <= |slots|
    ensures |r| == n && forall k :: 0 <= k < n ==> r[k] == PlacedAt(p, t, slots, k)
  {
    if n == 0 then [] else PlacedTo(p, t, slots, n - 1) + [PlacedAt(p, t, slots, n - 1)]
  }

  // ----- rounding -----

  lemma QuotientIs(a: nat, q: nat, r: nat)
    requires r < a
    ensures (a * q + r) / a == q
  {
    var x := a * q + r;
    assert x == a * (x / a) + x % a;
    var d := q - x / a;
    assert a * d == x % a - r;
    MultiplesAreApart(a, d);
  }

  lemma RoundUpIsPad(x: nat, a: nat)
    requires a > 0
    ensures RoundUp(x, a) == x + Pad(x, a)
  {
    var q, r := x / a, x % a;
    assert x == a * q + r;
    if r == 0 {
      QuotientIs(a, q, a - 1);
      assert a % a == 0 by { MultipleIsDivided(a, 1); }
    } else {
      assert x + a - 1 == a * (q + 1) + (r - 1);
      QuotientIs(a, q + 1, r - 1);
      assert (a - r) % a == a - r by { QuotientIs(a, 0, a - r); }
      assert a * (q + 1) == a * q + a;
    }
  }

  // ----- the walk follows the rule -----

  lemma {:induction false} EndsAscend(p: Platform, union: bool, slots: seq<Slot>, k: nat, n: nat)
    requires k <= n <= |slots|
    ensures EndOf(p, union, slots, k) <= EndOf(p, union, slots, n)
    ensures k < n ==> StartOf(p, union, slots, k) + slots[k].size <= EndOf(p, union, slots, n)
    decreases n
  {
    if k < n {
      EndsAscend(p, union, slots, k, n - 1);
      if !union {
        RoundUpGrows(EndOf(p, union, slots, n - 1), slots[n - 1].alignment);
      }
    }
  }

  lemma RoundUpGrows(x: nat, a: nat)
    ensures x <= RoundUp(x, a)
  {
    if a > 0 {
      RoundUpIsPad(x, a);
    }
  }

  lemma SlotIsNeeded(p: Platform, g: Graph, m: Member, done: Layouts)
    requires !m.target.Unknown? && (ByValue(m) ==> m.target.index in done && m.target.index < |g|)
    ensures SlotOf(p, g, m, done) == Needs(p, g, m, done)
  {
  }

  /** One member: the checks and the offsets of the rule. */
  lemma PlaceFollows(p: Platform, t: Native, w: Walk, m: Member, slot: Slot, native: nat, start: nat)
    requires t.memSize <= p.sizeMax
    requires native == m.padding + if t.kind.Union? then 0 else w.nativeOffset
    requires start == RoundUp(if t.kind.Union? then p.u32Bytes else w.offset, slot.alignment)
    requires start + slot.size <= p.sizeMax
    ensures var skip := if m.isArray then p.sizeBytes else 0;
            Place(p, t, w, m, slot) ==
            if slot.size > 0 && slot.alignment > 0 && native + slot.nativeSize <= t.memSize
            then Some(Walk(if t.kind.Union? then Max(w.offset, start + slot.size) else start + slot.size,
                           Max(w.alignment, slot.alignment),
                           if t.kind.Union? then native else native + slot.nativeSize,
                           w.placed + [Placed(start, start + skip, native, native + skip)]))
            else None
  {
    hide RoundUp, Pad, Wrapped;
    if slot.alignment > 0 {
      RoundUpIsPad(Base(p, t.kind.Union?, w), slot.alignment);
      WrappedKeeps(p, start);
    }
  }

  /** The walk stands where the rule says after `n` members. */
  ghost predicate Stands(p: Platform, t: Native, slots: seq<Slot>, n: nat, w: Walk)
    requires |slots| == |t.members| && n <= |slots|
  {
    && w.offset == EndOf(p, t.kind.Union?, slots, n)
    && w.alignment == AlignOf(p, t.kind.Union?, slots, n)
    && w.placed == PlacedTo(p, t, slots, n)
    && (!t.kind.Union? ==>
          w.nativeOffset == if n == 0 then 0 else NativeStart(t, slots, n - 1) + slots[n - 1].nativeSize)
  }

  lemma {:induction false} OneMore(p: Platform, t: Native, slots: seq<Slot>, n: nat, w: Walk)
    requires |slots| == |t.members| && n < |slots| && t.memSize <= p.sizeMax
    requires Stands(p, t, slots, n, w) && EndOf(p, t.kind.Union?, slots, n + 1) <= p.sizeMax
    ensures var next := Place(p, t, w, t.members[n], slots[n]);
            && (next.Some? <==> slots[n].size > 0 && slots[n].alignment > 0
                                && NativeStart(t, slots, n) + slots[n].nativeSize <= t.memSize)
            && (next.Some? ==> Stands(p, t, slots, n + 1, next.value))
  {
    hide Place, RoundUp;
    PlaceFollows(p, t, w, t.members[n], slots[n], NativeStart(t, slots, n), StartOf(p, t.kind.Union?, slots, n));
  }

  lemma {:induction false} WalkFollows(p: Platform, g: Graph, i: nat, n: nat, done: Layouts)
    requires i < |g| && n <= |g[i].members| && Known(g, i, n, done) && g[i].memSize <= p.sizeMax
    requires EndOf(p, g[i].kind.Union?, NeedsAll(p, g, i, done), n) <= p.sizeMax
    ensures var slots := NeedsAll(p, g, i, done);
            var w := WalkTo(p, g, i, n, done);
            (w.Some? <==> Acceptable(g[i], slots, n)) && (w.Some? ==> Stands(p, g[i], slots, n, w.value))
    decreases n
  {
    hide Place, RoundUp, SlotOf, Needs, NeedsAll, Stands, EndOf, NativeStart;
    var t, slots := g[i], NeedsAll(p, g, i, done);
    if n == 0 {
      StandsFirst(p, t, slots);
    } else {
      var m := t.members[n - 1];
      EndsAscend(p, t.kind.Union?, slots, n - 1, n);
      WalkFollows(p, g, i, n - 1, done);
      NeedIs(p, g, i, n - 1, done);
      var before := WalkTo(p, g, i, n - 1, done);
      if before.Some? && !m.target.Unknown? {
        SlotIsNeeded(p, g, m, done);
        OneMore(p, t, slots, n - 1, before.value);
      }
    }
  }

  lemma StandsFirst(p: Platform, t: Native, slots: seq<Slot>)
    requires |slots| == |t.members|
    ensures Stands(p, t, slots, 0, Start(p, t.kind.Union?))
  {
  }

  lemma NeedIs(p: Platform, g: Graph, i: nat, k: nat, done: Layouts)
    requires i < |g| && k < |g[i].members|
    ensures NeedsAll(p, g, i, done)[k] == Needs(p, g, g[i].members[k], done)
  {
  }

  lemma {:induction false} AlignIsPositive(p: Platform, union: bool, slots: seq<Slot>, n: nat)
    requires n <= |slots| && p.u32Align > 0
    ensures AlignOf(p, union, slots, n) > 0
  {
    if n > 0 {
      AlignIsPositive(p, union, slots, n - 1);
    }
  }

  /** Whenever the sizes are representable, the computed layout of a structure or union is the one of the rule,
      and there is one exactly when the member list is there, every member has a known type of some
      size, and all of them lie inside the native record. */
  lemma LayoutFollowsTheRule(p: Platform, g: Graph, i: nat, done: Layouts)
    requires i < |g| && (g[i].kind.Structure? || g[i].kind.OptStructure? || g[i].kind.Union?)
    requires Known(g, i, |g[i].members|, done) && p.u32Align > 0 && g[i].memSize <= p.sizeMax
    requires var slots := NeedsAll(p, g, i, done);
             EndOf(p, g[i].kind.Union?, slots, |slots|) + AlignOf(p, g[i].kind.Union?, slots, |slots|) <= p.sizeMax
    ensures var t, slots := g[i], NeedsAll(p, g, i, done);
            var n, union := |slots|, t.kind.Union?;
            var end, alignment := EndOf(p, union, slots, n), AlignOf(p, union, slots, n);
            Compute(p, g, i, done) ==
            if !(t.members != [] && t.membersMissing) && Acceptable(t, slots, n)
            then Some(Layout(Max(1, RoundUp(end, alignment)), alignment, PlacedTo(p, t, slots, n)))
            else None
  {
    hide WalkTo, NeedsAll, RoundUp, Pad, EndOf, AlignOf, Acceptable;
    var t, slots := g[i], NeedsAll(p, g, i, done);
    WalkFollows(p, g, i, |slots|, done);
    AlignIsPositive(p, t.kind.Union?, slots, |slots|);
    RoundUpIsPad(EndOf(p, t.kind.Union?, slots, |slots|), AlignOf(p, t.kind.Union?, slots, |slots|));
  }

  /** A simple type has the layout of the built-in table if and only if its native size is that of the table;
      an unsupported one has none. */
  lemma SimpleFollowsTheTable(p: Platform, g: Graph, i: nat, done: Layouts)
    requires i < |g| && (g[i].kind.Simple? || g[i].kind.Unsupported?) && p.u32Align > 0
    ensures Compute(p, g, i, done) ==
            if g[i].kind.Simple? && g[i].memSize == g[i].kind.entry.memSize
            then Some(Layout(g[i].kind.entry.size, g[i].kind.entry.alignment, [])) else None
  {
  }

  /** The rule itself: rounding gives the least aligned offset. */
  lemma RoundUpIsLeast(x: nat, a: nat, y: nat)
    requires a > 0
    ensures Divides(a, RoundUp(x, a)) && x <= RoundUp(x, a) < x + a
    ensures Divides(a, y) && x <= y ==> RoundUp(x, a) <= y
  {
    RoundUpIsPad(x, a);
    PadRoundsUp(x, a);
    if Divides(a, y) && x <= y {
      var r := RoundUp(x, a);
      assert y == a * (y / a) && r == a * (r / a);
      var d := r / a - y / a;
      assert r - y == a * d;
      MultiplesAreApart(a, d);
    }
  }
}
