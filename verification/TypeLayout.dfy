/** Public C layouts of runtime types: the specification behind cpkt_dynamic_layout.

    A group of native types is a graph whose nodes name their members' types. A layout is computed
    from the layouts of the members held by value; arrays and optional members are pointers. */
module TypeLayout {
  import opened Common

  /** Sizes and alignments of the C platform. */
  datatype Platform = Platform(
    sizeMax: nat,
    sizeBytes: nat,
    sizeAlign: nat,
    pointerBytes: nat,
    pointerAlign: nat,
    u32Bytes: nat,
    u32Align: nat)

  /** A type whose layout is already known: its public size and alignment and its native size. */
  datatype Entry = Entry(size: nat, alignment: nat, memSize: nat)

  /** `Simple` carries the row of the built-in table that the kind selects (enumerations select INT32). */
  datatype Kind = Simple(entry: Entry) | Structure | OptStructure | Union | Unsupported

  /** What a member's type resolves to: a type of this group, another known type, or nothing. */
  datatype Target = Own(index: nat) | Foreign(entry: Entry) | Unknown

  datatype Member = Member(target: Target, isArray: bool, isOptional: bool, padding: nat)

  datatype Native = Native(kind: Kind, memSize: nat, members: seq<Member>, membersMissing: bool)

  type Graph = seq<Native>

  datatype Placed = Placed(cSizeOffset: nat, cOffset: nat, uaSizeOffset: nat, uaOffset: nat)

  datatype Layout = Layout(size: nat, alignment: nat, placed: seq<Placed>)

  /** The room one member takes: public size and alignment, native size. */
  datatype Slot = Slot(size: nat, alignment: nat, nativeSize: nat)

  /** Running totals of the member loop. */
  datatype Walk = Walk(offset: nat, alignment: nat, nativeOffset: nat, placed: seq<Placed>)

  type Layouts = map<nat, Layout>

  predicate ByValue(m: Member) { !m.isArray && !m.isOptional && m.target.Own? }

  predicate WellFormed(g: Graph) {
    forall i, k :: 0 <= i < |g| && 0 <= k < |g[i].members| && g[i].members[k].target.Own? ==>
      g[i].members[k].target.index < |g|
  }

  predicate Aggregate(t: Native) { t.kind.Structure? || t.kind.OptStructure? || t.kind.Union? }

  /** Type `i` holds type `j` by value. */
  ghost predicate Holds(g: Graph, i: nat, j: nat) {
    i < |g| && Aggregate(g[i]) &&
    exists k :: 0 <= k < |g[i].members| && ByValue(g[i].members[k]) && g[i].members[k].target.index == j
  }

  /** Bytes to the next multiple of `alignment`. */
  function Pad(offset: nat, alignment: nat): nat
    requires alignment > 0
  {
    (alignment - offset % alignment) % alignment
  }

  /** size_t addition that is not checked for overflow. */
  function Wrapped(p: Platform, value: nat): nat {
    value % (p.sizeMax + 1)
  }

  /** The layouts of the by-value members among the first `n` are known. */
  predicate Known(g: Graph, i: nat, n: nat, done: Layouts)
    requires i < |g| && n <= |g[i].members|
  {
    forall k :: 0 <= k < n && ByValue(g[i].members[k]) ==>
      g[i].members[k].target.index in done && g[i].members[k].target.index < |g|
  }

  function SlotOf(p: Platform, g: Graph, m: Member, done: Layouts): Slot
    requires !m.target.Unknown?
    requires ByValue(m) ==> m.target.index in done && m.target.index < |g|
  {
    if m.isArray then
      Slot(p.sizeBytes + p.pointerBytes, Max(p.sizeAlign, p.pointerAlign), p.sizeBytes + p.pointerBytes)
    else if m.isOptional then Slot(p.pointerBytes, p.pointerAlign, p.pointerBytes)
    else match m.target
      case Own(j) => Slot(done[j].size, done[j].alignment, g[j].memSize)
      case Foreign(e) => Slot(e.size, e.alignment, e.memSize)
  }

  function Start(p: Platform, union: bool): Walk {
    if union then Walk(p.u32Bytes, p.u32Align, 0, []) else Walk(0, 1, 0, [])
  }

  /** Where a member of a structure goes before alignment; union members all start past the
      discriminator. */
  function Base(p: Platform, union: bool, w: Walk): nat {
    if union then p.u32Bytes else w.offset
  }

  /** One turn of the member loop; none when the definition is rejected. */
  function Place(p: Platform, t: Native, w: Walk, m: Member, slot: Slot): Option<Walk> {
    var union := t.kind.Union?;
    if slot.alignment == 0 || slot.size == 0 then None
    else if !union && w.nativeOffset + m.padding > p.sizeMax then None
    else
      var native := if union then m.padding else w.nativeOffset + m.padding;
      var base := Base(p, union, w);
      var c := Wrapped(p, base + Pad(base, slot.alignment));
      if native > t.memSize || slot.nativeSize > t.memSize - native || c + slot.size > p.sizeMax then None
      else
        var skip := if m.isArray then p.sizeBytes else 0;
        Some(Walk(if union then Max(w.offset, c + slot.size) else c + slot.size,
                  Max(w.alignment, slot.alignment),
                  if union then native else native + slot.nativeSize,
                  w.placed + [Placed(c, c + skip, native, native + skip)]))
  }

  /** The member loop after its first `n` turns. */
  function WalkTo(p: Platform, g: Graph, i: nat, n: nat, done: Layouts): Option<Walk>
    requires i < |g| && n <= |g[i].members| && Known(g, i, n, done)
  {
    if n == 0 then Some(Start(p, g[i].kind.Union?))
    else
      var m := g[i].members[n - 1];
      var before := WalkTo(p, g, i, n - 1, done);
      if before.None? || m.target.Unknown? then None
      else Place(p, g[i], before.value, m, SlotOf(p, g, m, done))
  }

  function Finish(p: Platform, w: Walk): Option<Layout>
    requires w.alignment > 0
  {
    if w.offset + w.alignment > p.sizeMax then None
    else
      var size := w.offset + Pad(w.offset, w.alignment);
      Some(Layout(if size == 0 then 1 else size, w.alignment, w.placed))
  }

  /** The layout of type `i`, given those of the types it holds by value. */
  function Compute(p: Platform, g: Graph, i: nat, done: Layouts): Option<Layout>
    requires i < |g| && p.u32Align > 0 && (Aggregate(g[i]) ==> Known(g, i, |g[i].members|, done))
  {
    var t := g[i];
    if t.kind.Simple? then
      if t.memSize != t.kind.entry.memSize then None
      else Some(Layout(t.kind.entry.size, t.kind.entry.alignment, []))
    else if !Aggregate(t) || (t.members != [] && t.membersMissing) then None
    else
      var w := WalkTo(p, g, i, |t.members|, done);
      if w.None? then None else if w.value.alignment == 0 then None else Finish(p, w.value)
  }

  /** Every layout in the table is the computed one, and what it depends on is in the table. */
  predicate Consistent(p: Platform, g: Graph, done: Layouts) {
    && p.u32Align > 0
    && forall i :: i in done ==>
         && i < |g|
         && (Aggregate(g[i]) ==> Known(g, i, |g[i].members|, done))
         && Compute(p, g, i, done) == Some(done[i])
  }

  /** `rank` descends from every laid out type to the types it holds by value. */
  ghost predicate Ranked(g: Graph, done: Layouts, rank: map<nat, nat>) {
    && rank.Keys == done.Keys
    && forall i, j :: i in rank && Holds(g, i, j) ==> j in rank && rank[j] < rank[i]
  }
}
