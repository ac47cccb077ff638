/** Computed layouts are sound C layouts, at every nesting depth. */
module LayoutSoundness {
  import opened Common
  import opened TypeLayout
  import opened TypeLayoutProofs

  // ----- one member -----

  /** The offset rounded up for this member is representable, so nothing wraps. */
  predicate FitsHere(p: Platform, t: Native, w: Walk, slot: Slot)
    requires slot.alignment > 0
  {
    var base := Base(p, t.kind.Union?, w);
    base + Pad(base, slot.alignment) <= p.sizeMax
  }

  lemma WrappedKeeps(p: Platform, value: nat)
    requires value <= p.sizeMax
    ensures Wrapped(p, value) == value
  {
  }

  lemma WrappedDrops(p: Platform, value: nat)
    requires p.sizeMax < value <= 2 * p.sizeMax
    ensures Wrapped(p, value) == value - p.sizeMax - 1
  {
    var m := p.sizeMax + 1;
    assert value == 1 * m + (value - m);
    assert value / m == 1;
  }

  /** Overflow of the unchecked rounding is the one way a member can land before its base. */
  lemma MemberAdvancesIffFits(p: Platform, t: Native, w: Walk, m: Member, slot: Slot)
    requires Place(p, t, w, m, slot).Some?
    requires Base(p, t.kind.Union?, w) <= p.sizeMax && slot.alignment <= p.sizeMax
    ensures var w' := Place(p, t, w, m, slot).value;
            w'.placed[|w.placed|].cSizeOffset >= Base(p, t.kind.Union?, w) <==> FitsHere(p, t, w, slot)
  {
    hide Pad, Wrapped, Divides;
    var base := Base(p, t.kind.Union?, w);
    PadRoundsUp(base, slot.alignment);
    if FitsHere(p, t, w, slot) {
      WrappedKeeps(p, base + Pad(base, slot.alignment));
    } else {
      WrappedDrops(p, base + Pad(base, slot.alignment));
    }
  }

  /** The data pointer of an array lies exactly behind its length, in both records; any other member is one
      piece. */
  predicate PointerBehindLength(p: Platform, m: Member, placed: Placed) {
    && placed.cOffset == placed.cSizeOffset + (if m.isArray then p.sizeBytes else 0)
    && placed.uaOffset == placed.uaSizeOffset + (if m.isArray then p.sizeBytes else 0)
  }

  predicate MemberSound(p: Platform, t: Native, m: Member, slot: Slot, placed: Placed, offset: nat, alignment: nat) {
    && slot.size > 0
    && Divides(slot.alignment, placed.cSizeOffset)
    && PointerBehindLength(p, m, placed)
    && placed.cSizeOffset + slot.size <= offset
    && slot.alignment <= alignment
    && placed.uaSizeOffset + slot.nativeSize <= t.memSize
    && (t.kind.Union? ==> p.u32Bytes <= placed.cSizeOffset)
  }

  lemma PlaceIsSound(p: Platform, t: Native, w: Walk, m: Member, slot: Slot)
    requires Place(p, t, w, m, slot).Some? && FitsHere(p, t, w, slot)
    ensures var w' := Place(p, t, w, m, slot).value;
            && |w'.placed| == |w.placed| + 1 && w'.placed[..|w.placed|] == w.placed
            && MemberSound(p, t, m, slot, w'.placed[|w.placed|], w'.offset, w'.alignment)
            && w.offset <= w'.offset && w.alignment <= w'.alignment
            && w'.alignment == Max(w.alignment, slot.alignment)
            && (!t.kind.Union? ==>
                  && w.offset <= w'.placed[|w.placed|].cSizeOffset
                  && w.nativeOffset <= w'.placed[|w.placed|].uaSizeOffset
                  && w'.placed[|w.placed|].uaSizeOffset + slot.nativeSize <= w'.nativeOffset)
  {
    hide Pad, Wrapped, Divides;
    var base := Base(p, t.kind.Union?, w);
    PadRoundsUp(base, slot.alignment);
    WrappedKeeps(p, base + Pad(base, slot.alignment));
  }

  // ----- one type -----

  function SlotAt(p: Platform, g: Graph, i: nat, k: nat, done: Layouts): Slot
    requires i < |g| && k < |g[i].members| && Known(g, i, |g[i].members|, done)
    requires !g[i].members[k].target.Unknown?
  {
    SlotOf(p, g, g[i].members[k], done)
  }

  /** None of the first `n` members wraps. */
  predicate FitsTo(p: Platform, g: Graph, i: nat, n: nat, done: Layouts)
    requires i < |g| && n <= |g[i].members| && Known(g, i, |g[i].members|, done)
    requires WalkTo(p, g, i, n, done).Some?
  {
    n == 0 ||
    (FitsTo(p, g, i, n - 1, done) &&
     var slot := SlotAt(p, g, i, n - 1, done);
     slot.alignment > 0 && FitsHere(p, g[i], WalkTo(p, g, i, n - 1, done).value, slot))
  }

  lemma {:induction false} WalkIsSound(p: Platform, g: Graph, i: nat, n: nat, done: Layouts, k: nat)
    requires i < |g| && k < n <= |g[i].members| && Known(g, i, |g[i].members|, done)
    requires WalkTo(p, g, i, n, done).Some? && FitsTo(p, g, i, n, done)
    ensures var w := WalkTo(p, g, i, n, done).value;
            && !g[i].members[k].target.Unknown?
            && |w.placed| == n
            && MemberSound(p, g[i], g[i].members[k], SlotAt(p, g, i, k, done), w.placed[k], w.offset, w.alignment)
            && (!g[i].kind.Union? ==> w.placed[k].uaSizeOffset + SlotAt(p, g, i, k, done).nativeSize <= w.nativeOffset)
    decreases n
  {
    var before := WalkTo(p, g, i, n - 1, done).value;
    PlaceIsSound(p, g[i], before, g[i].members[n - 1], SlotAt(p, g, i, n - 1, done));
    hide Place, Pad, Wrapped, Divides;
    WalkLength(p, g, i, n - 1, done);
    if k < n - 1 {
      WalkIsSound(p, g, i, n - 1, done, k);
    }
  }

  lemma {:induction false} WalkLength(p: Platform, g: Graph, i: nat, n: nat, done: Layouts)
    requires i < |g| && n <= |g[i].members| && Known(g, i, n, done)
    requires WalkTo(p, g, i, n, done).Some?
    ensures |WalkTo(p, g, i, n, done).value.placed| == n
    ensures p.u32Align > 0 ==> WalkTo(p, g, i, n, done).value.alignment > 0
    decreases n
  {
    if n > 0 {
      WalkLength(p, g, i, n - 1, done);
    }
  }

  /** Members of a structure come one after the other, in the public and in the native record. */
  lemma {:induction false} WalkAscends(p: Platform, g: Graph, i: nat, n: nat, done: Layouts, j: nat, k: nat)
    requires i < |g| && j < k < n <= |g[i].members| && Known(g, i, |g[i].members|, done)
    requires WalkTo(p, g, i, n, done).Some? && FitsTo(p, g, i, n, done) && !g[i].kind.Union?
    ensures var w := WalkTo(p, g, i, n, done).value;
            && |w.placed| == n && !g[i].members[j].target.Unknown?
            && w.placed[j].cSizeOffset + SlotAt(p, g, i, j, done).size <= w.placed[k].cSizeOffset
            && w.placed[j].uaSizeOffset + SlotAt(p, g, i, j, done).nativeSize <= w.placed[k].uaSizeOffset
    decreases n
  {
    var before := WalkTo(p, g, i, n - 1, done).value;
    PlaceIsSound(p, g[i], before, g[i].members[n - 1], SlotAt(p, g, i, n - 1, done));
    hide Place, Pad, Wrapped, Divides;
    WalkLength(p, g, i, n - 1, done);
    if k < n - 1 {
      WalkAscends(p, g, i, n - 1, done, j, k);
    } else {
      WalkIsSound(p, g, i, n - 1, done, j);
    }
  }

  /** No member of any laid out type wraps. */
  predicate Fits(p: Platform, g: Graph, done: Layouts)
    requires Consistent(p, g, done)
  {
    forall i :: i in done && Aggregate(g[i]) ==> FitsTo(p, g, i, |g[i].members|, done)
  }

  /** Member `k` of laid out type `i`. */
  lemma MemberIsSound(p: Platform, g: Graph, done: Layouts, i: nat, k: nat)
    requires Consistent(p, g, done) && Fits(p, g, done)
    requires i in done && Aggregate(g[i]) && k < |g[i].members|
    ensures !g[i].members[k].target.Unknown?
    ensures |done[i].placed| == |g[i].members|
    ensures MemberSound(p, g[i], g[i].members[k], SlotAt(p, g, i, k, done), done[i].placed[k], done[i].size,
                        done[i].alignment)
  {
    WalkIsSound(p, g, i, |g[i].members|, done, k);
    hide WalkTo, Pad, Divides;
  }

  lemma MembersAscend(p: Platform, g: Graph, done: Layouts, i: nat, j: nat, k: nat)
    requires Consistent(p, g, done) && Fits(p, g, done)
    requires i in done && Aggregate(g[i]) && !g[i].kind.Union? && j < k < |g[i].members|
    ensures !g[i].members[j].target.Unknown?
    ensures |done[i].placed| == |g[i].members|
    ensures done[i].placed[j].cSizeOffset + SlotAt(p, g, i, j, done).size <= done[i].placed[k].cSizeOffset
    ensures done[i].placed[j].uaSizeOffset + SlotAt(p, g, i, j, done).nativeSize <= done[i].placed[k].uaSizeOffset
  {
    WalkAscends(p, g, i, |g[i].members|, done, j, k);
    hide WalkTo, Pad;
  }

  /** The size of an aggregate is a positive multiple of its alignment, so arrays of it stay aligned. */
  lemma SizeIsMultiple(p: Platform, g: Graph, done: Layouts, i: nat)
    requires Consistent(p, g, done) && i in done && Aggregate(g[i]) && p.u32Bytes > 0
    ensures done[i].size > 0 && Divides(done[i].alignment, done[i].size)
  {
    var n := |g[i].members|;
    WalkLength(p, g, i, n, done);
    var w := WalkTo(p, g, i, n, done).value;
    PadRoundsUp(w.offset, w.alignment);
    if w.offset + Pad(w.offset, w.alignment) == 0 {
      ZeroOffset(p, g, i, n, done);
    }
    hide WalkTo, Pad;
  }

  /** Only a structure without members ends its walk at offset zero. */
  lemma {:induction false} ZeroOffset(p: Platform, g: Graph, i: nat, n: nat, done: Layouts)
    requires i < |g| && n <= |g[i].members| && Known(g, i, n, done) && p.u32Bytes > 0
    requires WalkTo(p, g, i, n, done).Some? && WalkTo(p, g, i, n, done).value.offset == 0
    ensures n == 0 && WalkTo(p, g, i, n, done).value.alignment == 1
  {
    if n > 0 {
      hide Pad, Wrapped;
    }
  }

  // ----- every nesting depth -----

  /** Leaf alignments are powers of two, as in every C ABI. */
  ghost predicate LeavesSound(p: Platform, g: Graph) {
    && p.u32Bytes > 0 && IsPow2(p.u32Align) && IsPow2(p.sizeAlign) && IsPow2(p.pointerAlign)
    && (forall i :: 0 <= i < |g| && g[i].kind.Simple? ==> IsPow2(g[i].kind.entry.alignment))
    && (forall i, k :: 0 <= i < |g| && 0 <= k < |g[i].members| && g[i].members[k].target.Foreign? ==>
          IsPow2(g[i].members[k].target.entry.alignment))
  }

  lemma {:induction false} WalkAlignment(p: Platform, g: Graph, i: nat, n: nat, done: Layouts)
    requires LeavesSound(p, g) && i < |g| && n <= |g[i].members| && Known(g, i, n, done)
    requires WalkTo(p, g, i, n, done).Some?
    requires forall k :: 0 <= k < n && ByValue(g[i].members[k]) ==> IsPow2(done[g[i].members[k].target.index].alignment)
    ensures IsPow2(WalkTo(p, g, i, n, done).value.alignment)
    decreases n
  {
    hide Pad, Wrapped;
    if n == 0 {
      assert 1 == Pow2(0);
    } else {
      WalkAlignment(p, g, i, n - 1, done);
      assert IsPow2(SlotOf(p, g, g[i].members[n - 1], done).alignment);
    }
  }

  /** Every computed alignment is a power of two. */
  lemma {:induction false} AlignmentIsPow2(p: Platform, g: Graph, done: Layouts, rank: map<nat, nat>, i: nat)
    requires LeavesSound(p, g) && Consistent(p, g, done) && Ranked(g, done, rank) && i in done
    ensures IsPow2(done[i].alignment)
    decreases rank[i]
  {
    if Aggregate(g[i]) {
      forall k | 0 <= k < |g[i].members| && ByValue(g[i].members[k])
        ensures IsPow2(done[g[i].members[k].target.index].alignment)
      {
        assert Holds(g, i, g[i].members[k].target.index);
        AlignmentIsPow2(p, g, done, rank, g[i].members[k].target.index);
      }
      WalkAlignment(p, g, i, |g[i].members|, done);
    }
  }

  lemma SlotAlignmentDivides(p: Platform, g: Graph, done: Layouts, rank: map<nat, nat>, i: nat, k: nat)
    requires LeavesSound(p, g) && Consistent(p, g, done) && Ranked(g, done, rank) && Fits(p, g, done)
    requires i in done && Aggregate(g[i]) && k < |g[i].members|
    ensures !g[i].members[k].target.Unknown?
    ensures Divides(SlotAt(p, g, i, k, done).alignment, done[i].alignment)
  {
    MemberIsSound(p, g, done, i, k);
    AlignmentIsPow2(p, g, done, rank, i);
    var m := g[i].members[k];
    if ByValue(m) {
      assert Holds(g, i, m.target.index);
      AlignmentIsPow2(p, g, done, rank, m.target.index);
    }
    var a := SlotAt(p, g, i, k, done).alignment;
    assert IsPow2(a);
    var x, y :| a == Pow2(x) && done[i].alignment == Pow2(y);
    Pow2Divides(x, y);
  }

  /** Member `k` of type `i` has been placed; in a consistent table every member of every type has
      (MemberIsSound). */
  predicate HasPlace(g: Graph, done: Layouts, i: nat, k: nat) {
    && i in done && i < |g| && Aggregate(g[i]) && k < |g[i].members| && k < |done[i].placed|
    && !g[i].members[k].target.Unknown?
    && (ByValue(g[i].members[k]) ==> g[i].members[k].target.index in done && g[i].members[k].target.index < |g|)
  }

  /** A non-empty list of member indices that can be followed by value from type `i`. */
  predicate IsPath(g: Graph, done: Layouts, i: nat, path: seq<nat>)
    decreases |path|
  {
    && path != [] && HasPlace(g, done, i, path[0])
    && (|path| > 1 ==>
          ByValue(g[i].members[path[0]]) && IsPath(g, done, g[i].members[path[0]].target.index, path[1..]))
  }

  /** Byte offset of the member at the end of a path. */
  function OffsetOf(g: Graph, done: Layouts, i: nat, path: seq<nat>): nat
    requires IsPath(g, done, i, path)
    decreases |path|
  {
    done[i].placed[path[0]].cSizeOffset +
    if |path| == 1 then 0 else OffsetOf(g, done, g[i].members[path[0]].target.index, path[1..])
  }

  /** The slot of the member at the end of a path. */
  function LeafOf(p: Platform, g: Graph, done: Layouts, i: nat, path: seq<nat>): Slot
    requires IsPath(g, done, i, path)
    decreases |path|
  {
    if |path| == 1 then SlotOf(p, g, g[i].members[path[0]], done)
    else LeafOf(p, g, done, g[i].members[path[0]].target.index, path[1..])
  }

  /** Whatever is nested by value, however deep, lies inside the slot of the member it is reached
      through, and so inside the outer object. */
  lemma {:induction false} NestedIsInside(p: Platform, g: Graph, done: Layouts, i: nat, path: seq<nat>)
    requires IsPath(g, done, i, path) && Consistent(p, g, done) && Fits(p, g, done)
    ensures var at := done[i].placed[path[0]].cSizeOffset;
            var end := OffsetOf(g, done, i, path) + LeafOf(p, g, done, i, path).size;
            && at <= OffsetOf(g, done, i, path)
            && end <= at + SlotOf(p, g, g[i].members[path[0]], done).size
            && end <= done[i].size
    decreases |path|
  {
    MemberIsSound(p, g, done, i, path[0]);
    if |path| > 1 {
      NestedIsInside(p, g, done, g[i].members[path[0]].target.index, path[1..]);
    }
  }

  lemma MemberIsAligned(p: Platform, g: Graph, done: Layouts, rank: map<nat, nat>, i: nat, k: nat, address: nat)
    requires LeavesSound(p, g) && Ranked(g, done, rank) && Consistent(p, g, done) && Fits(p, g, done)
    requires HasPlace(g, done, i, k) && Divides(done[i].alignment, address)
    ensures Divides(SlotOf(p, g, g[i].members[k], done).alignment, address + done[i].placed[k].cSizeOffset)
  {
    hide Divides, LeavesSound, Ranked, Fits, Consistent;
    MemberIsSound(p, g, done, i, k);
    SlotAlignmentDivides(p, g, done, rank, i, k);
    var a := SlotOf(p, g, g[i].members[k], done).alignment;
    DividesTrans(a, done[i].alignment, address);
    DividesSum(a, address, done[i].placed[k].cSizeOffset);
  }

  /** Whatever is nested by value is aligned whenever the outer object is. */
  lemma {:induction false} NestedIsAligned(p: Platform, g: Graph, done: Layouts, rank: map<nat, nat>,
                                           i: nat, path: seq<nat>, address: nat)
    requires LeavesSound(p, g) && Ranked(g, done, rank)
    requires IsPath(g, done, i, path) && Consistent(p, g, done) && Fits(p, g, done)
    requires Divides(done[i].alignment, address)
    ensures Divides(LeafOf(p, g, done, i, path).alignment, address + OffsetOf(g, done, i, path))
    decreases |path|
  {
    hide Divides, LeavesSound, Ranked, Fits, Consistent;
    var k := path[0];
    MemberIsAligned(p, g, done, rank, i, k, address);
    if |path| > 1 {
      var at := done[i].placed[k].cSizeOffset;
      NestedIsAligned(p, g, done, rank, g[i].members[k].target.index, path[1..], address + at);
    }
  }

  /** What a member's bytes are, in both records and written out: an array is its length and, exactly behind
      it, the data pointer; an optional member a pointer; any other the type itself. All of it lies
      inside the public type and inside memSize, at aligned offsets. */
  lemma MemberIsPlacedRight(p: Platform, g: Graph, done: Layouts, i: nat, k: nat)
    requires Consistent(p, g, done) && Fits(p, g, done)
    requires i in done && Aggregate(g[i]) && k < |g[i].members|
    ensures |done[i].placed| == |g[i].members|
    ensures var m, at := g[i].members[k], done[i].placed[k];
            && (m.isArray ==>
                  && at.cOffset == at.cSizeOffset + p.sizeBytes && at.cOffset + p.pointerBytes <= done[i].size
                  && at.uaOffset == at.uaSizeOffset + p.sizeBytes && at.uaOffset + p.pointerBytes <= g[i].memSize
                  && Divides(Max(p.sizeAlign, p.pointerAlign), at.cSizeOffset))
            && (!m.isArray ==> at.cOffset == at.cSizeOffset && at.uaOffset == at.uaSizeOffset)
            && (!m.isArray && m.isOptional ==>
                  && at.cOffset + p.pointerBytes <= done[i].size && at.uaOffset + p.pointerBytes <= g[i].memSize
                  && Divides(p.pointerAlign, at.cOffset))
            && (ByValue(m) ==>
                  var j := m.target.index;
                  && j in done && at.cOffset + done[j].size <= done[i].size
                  && at.uaOffset + g[j].memSize <= g[i].memSize
                  && Divides(done[j].alignment, at.cOffset))
            && (!m.isArray && !m.isOptional && m.target.Foreign? ==>
                  var e := m.target.entry;
                  && at.cOffset + e.size <= done[i].size && at.uaOffset + e.memSize <= g[i].memSize
                  && Divides(e.alignment, at.cOffset))
            && (g[i].kind.Union? ==> p.u32Bytes <= at.cSizeOffset)
  {
    hide Divides, Fits;
    MemberIsSound(p, g, done, i, k);
  }

  /** The discriminator of a union is inside it and aligned with it. */
  lemma DiscriminatorIsSound(p: Platform, g: Graph, done: Layouts, i: nat)
    requires Consistent(p, g, done) && Fits(p, g, done) && i in done && g[i].kind.Union?
    ensures p.u32Bytes <= done[i].size && p.u32Align <= done[i].alignment
  {
    UnionWalk(p, g, i, |g[i].members|, done);
    hide WalkTo;
  }

  lemma {:induction false} UnionWalk(p: Platform, g: Graph, i: nat, n: nat, done: Layouts)
    requires i < |g| && n <= |g[i].members| && Known(g, i, n, done) && g[i].kind.Union?
    requires WalkTo(p, g, i, n, done).Some?
    ensures var w := WalkTo(p, g, i, n, done).value; p.u32Bytes <= w.offset && p.u32Align <= w.alignment
    decreases n
  {
    hide Pad, Wrapped;
    if n > 0 {
      UnionWalk(p, g, i, n - 1, done);
    }
  }

  lemma DividesRest(a: nat, x: nat, y: nat)
    requires a > 0 && Divides(a, x)
    ensures Divides(a, x + y) <==> Divides(a, y)
  {
    if Divides(a, y) {
      DividesSum(a, x, y);
    }
    if Divides(a, x + y) {
      assert x == a * (x / a) && x + y == a * ((x + y) / a);
      var q := (x + y) / a - x / a;
      assert y == a * q;
      MultiplesAreApart(a, q);
      MultipleIsDivided(a, q);
    }
  }

  /** The data pointer of every nested array is aligned, whenever the outer object is, if and only if the length
      before it fills whole alignments of a pointer. */
  lemma NestedPointerIsAlignedIff(p: Platform, g: Graph, done: Layouts, rank: map<nat, nat>, i: nat, path: seq<nat>,
                                  address: nat)
    requires LeavesSound(p, g) && Ranked(g, done, rank)
    requires IsPath(g, done, i, path) && Consistent(p, g, done) && Fits(p, g, done)
    requires Divides(done[i].alignment, address) && LastOf(g, done, i, path).isArray
    ensures Divides(p.pointerAlign, address + OffsetOf(g, done, i, path) + p.sizeBytes)
            <==> Divides(p.pointerAlign, p.sizeBytes)
    ensures OffsetOf(g, done, i, path) + p.sizeBytes + p.pointerBytes <= done[i].size
  {
    hide Divides, Consistent, Fits, Ranked, LeavesSound;
    NestedIsAligned(p, g, done, rank, i, path, address);
    NestedIsInside(p, g, done, i, path);
    LastIsLeaf(p, g, done, i, path);
    PointerDividesArray(p, g);
    var at := address + OffsetOf(g, done, i, path);
    DividesTrans(p.pointerAlign, Max(p.sizeAlign, p.pointerAlign), at);
    DividesRest(p.pointerAlign, at, p.sizeBytes);
  }

  /** The member at the end of a path. */
  function LastOf(g: Graph, done: Layouts, i: nat, path: seq<nat>): Member
    requires IsPath(g, done, i, path)
    decreases |path|
  {
    if |path| == 1 then g[i].members[path[0]] else LastOf(g, done, g[i].members[path[0]].target.index, path[1..])
  }

  lemma {:induction false} LastIsLeaf(p: Platform, g: Graph, done: Layouts, i: nat, path: seq<nat>)
    requires IsPath(g, done, i, path) && LastOf(g, done, i, path).isArray
    ensures LeafOf(p, g, done, i, path).alignment == Max(p.sizeAlign, p.pointerAlign)
    ensures LeafOf(p, g, done, i, path).size == p.sizeBytes + p.pointerBytes
    decreases |path|
  {
    if |path| > 1 {
      LastIsLeaf(p, g, done, g[i].members[path[0]].target.index, path[1..]);
    }
  }

  lemma PointerDividesArray(p: Platform, g: Graph)
    requires LeavesSound(p, g)
    ensures Divides(p.pointerAlign, Max(p.sizeAlign, p.pointerAlign)) && p.pointerAlign > 0
  {
    var x, y :| p.sizeAlign == Pow2(x) && p.pointerAlign == Pow2(y);
    Pow2Divides(y, y);
    Pow2Positive(y);
    if p.sizeAlign >= p.pointerAlign {
      Pow2Divides(y, x);
    }
  }

  /** The address of element `n` of an array. */
  function ElementOf(address: nat, size: nat, n: nat): nat { address + size * n }

  /** Every element of an array of a laid out aggregate is aligned when the array is. */
  lemma ElementsAreAligned(p: Platform, g: Graph, done: Layouts, i: nat, address: nat, n: nat)
    requires Consistent(p, g, done) && i in done && Aggregate(g[i]) && p.u32Bytes > 0
    requires Divides(done[i].alignment, address)
    ensures Divides(done[i].alignment, ElementOf(address, done[i].size, n))
  {
    hide Divides, Consistent;
    SizeIsMultiple(p, g, done, i);
    MultipleIsDivided(done[i].size, n);
    DividesTrans(done[i].alignment, done[i].size, done[i].size * n);
    DividesSum(done[i].alignment, address, done[i].size * n);
  }

  /** Two paths part at a type that is not a union. */
  predicate PartInStructure(g: Graph, done: Layouts, i: nat, a: seq<nat>, b: seq<nat>)
    requires IsPath(g, done, i, a) && IsPath(g, done, i, b)
    decreases |a|
  {
    if a[0] != b[0] then !g[i].kind.Union?
    else |a| > 1 && |b| > 1 && PartInStructure(g, done, g[i].members[a[0]].target.index, a[1..], b[1..])
  }

  /** Members reached by paths that part in a structure never share a byte. */
  lemma {:induction false} NestedIsDisjoint(p: Platform, g: Graph, done: Layouts, i: nat, a: seq<nat>, b: seq<nat>)
    requires Consistent(p, g, done) && Fits(p, g, done)
    requires IsPath(g, done, i, a) && IsPath(g, done, i, b) && PartInStructure(g, done, i, a, b)
    ensures var x, y := OffsetOf(g, done, i, a), OffsetOf(g, done, i, b);
            x + LeafOf(p, g, done, i, a).size <= y || y + LeafOf(p, g, done, i, b).size <= x
    decreases |a|
  {
    if a[0] == b[0] {
      NestedIsDisjoint(p, g, done, g[i].members[a[0]].target.index, a[1..], b[1..]);
    } else {
      NestedIsInside(p, g, done, i, a);
      NestedIsInside(p, g, done, i, b);
      if a[0] < b[0] {
        MembersAscend(p, g, done, i, a[0], b[0]);
      } else {
        MembersAscend(p, g, done, i, b[0], a[0]);
      }
    }
  }

  // ----- a layout that wraps -----

  const LP64: Platform := Platform(0xFFFF_FFFF_FFFF_FFFF, 8, 8, 8, 8, 4, 4)

  const HUGE: Slot := Slot(0xFFFF_FFFF_FFFF_FFFD, 1, 0)

  /** A structure of a member of 2^64 - 3 bytes and one of 8: rounding 2^64 - 3 up to 8 gives 0. */
  const WRAPPING: Graph := [
    Native(Structure, 16,
           [Member(Foreign(Entry(HUGE.size, HUGE.alignment, HUGE.nativeSize)), false, false, 0),
            Member(Foreign(Entry(8, 8, 8)), false, false, 0)],
           false)]

  const WRAPPED: Layout := Layout(8, 8, [Placed(0, 0, 0, 0), Placed(0, 0, 0, 0)])

  const FIRST_ONLY: Walk := Walk(HUGE.size, 1, 0, [Placed(0, 0, 0, 0)])

  lemma HugeIsPlaced()
    ensures Place(LP64, WRAPPING[0], Walk(0, 1, 0, []), WRAPPING[0].members[0], HUGE) == Some(FIRST_ONLY)
  {
    assert Pad(0, 1) == 0;
    assert [] + [Placed(0, 0, 0, 0)] == [Placed(0, 0, 0, 0)];
  }

  lemma EightWraps()
    ensures Place(LP64, WRAPPING[0], FIRST_ONLY, WRAPPING[0].members[1], Slot(8, 8, 8)) ==
            Some(Walk(8, 8, 8, WRAPPED.placed))
  {
    assert HUGE.size % 8 == 5;
    assert Pad(HUGE.size, 8) == 3;
    assert Wrapped(LP64, HUGE.size + 3) == 0;
    assert FIRST_ONLY.placed + [Placed(0, 0, 0, 0)] == WRAPPED.placed;
  }

  lemma WrappingWalks()
    ensures Known(WRAPPING, 0, 2, map[]) && WalkTo(LP64, WRAPPING, 0, 2, map[]) == Some(Walk(8, 8, 8, WRAPPED.placed))
  {
    hide Place;
    HugeIsPlaced();
    EightWraps();
    assert WalkTo(LP64, WRAPPING, 0, 0, map[]) == Some(Walk(0, 1, 0, []));
    assert SlotOf(LP64, WRAPPING, WRAPPING[0].members[0], map[]) == HUGE;
    assert WalkTo(LP64, WRAPPING, 0, 1, map[]) == Some(FIRST_ONLY);
    assert SlotOf(LP64, WRAPPING, WRAPPING[0].members[1], map[]) == Slot(8, 8, 8);
  }

  /** The structure is accepted with a layout in which the first member overlaps the second and reaches
      past the end of the type. */
  lemma WrappingOverlaps()
    ensures var done: Layouts := map[0 := WRAPPED];
            && Consistent(LP64, WRAPPING, done) && Compute(LP64, WRAPPING, 0, map[]) == Some(WRAPPED)
            && SlotOf(LP64, WRAPPING, WRAPPING[0].members[0], done) == HUGE
            && WRAPPED.placed[1].cSizeOffset < WRAPPED.placed[0].cSizeOffset + HUGE.size
            && !MemberSound(LP64, WRAPPING[0], WRAPPING[0].members[0], HUGE, WRAPPED.placed[0], WRAPPED.size,
                            WRAPPED.alignment)
            && !Fits(LP64, WRAPPING, done)
  {
    WrappingWalks();
    var done: Layouts := map[0 := WRAPPED];
    assert Compute(LP64, WRAPPING, 0, map[]) == Some(WRAPPED);
    ComputeAgrees(LP64, WRAPPING, 0, map[], done);
    if Fits(LP64, WRAPPING, done) {
      MemberIsSound(LP64, WRAPPING, done, 0, 0);
    }
  }
}
