/** The linked registry behind AsyncOperations: its loops over list slots refine the operations on the
    sequence of registered operations. */
module AsyncRegistry {
  import opened Common
  import opened AsyncOperations

  class Entry {
    const id: Id
    var next: Entry?
    var references: nat

    constructor (id: Id)
      ensures this.id == id && next == null && references == 2
    {
      this.id, next, references := id, null, 2;
    }
  }

  class Registry {
    var head: Entry?
    ghost var entries: seq<Entry>

    /** Entry `k` of the list, null past its end. */
    ghost function Node(k: nat): Entry?
      reads this
    {
      if k < |entries| then entries[k] else null
    }

    ghost predicate Chained(k: nat)
      reads this, entries`next
    {
      k < |entries| && entries[k].next == Node(k + 1)
    }

    /** The pointers run through the entries in order, and no operation is listed twice. */
    ghost predicate Valid()
      reads this, entries`next
    {
      && head == Node(0)
      && (forall k: nat {:trigger Chained(k)} :: k < |entries| ==> Chained(k))
      && (forall j, k :: 0 <= j < k < |entries| ==> entries[j] != entries[k] && entries[j].id != entries[k].id)
    }

    ghost function Ids(): (ids: seq<Id>)
      reads this
      ensures |ids| == |entries| && forall k :: 0 <= k < |ids| ==> ids[k] == entries[k].id
    {
      seq(|entries|, k requires 0 <= k < |entries| reads this => entries[k].id)
    }

    constructor ()
      ensures Valid() && Ids() == []
    {
      head, entries := null, [];
    }

    /** Walks to the empty slot at the end and fills it. */
    method Append(op: Entry)
      requires Valid() && op.next == null && op !in entries && op.id !in Ids()
      modifies this, entries`next
      ensures Valid() && entries == old(entries) + [op] && Ids() == old(Ids()) + [op.id]
    {
      if head == null {
        head := op;
      } else {
        var slot: Entry := head;
        ghost var k := 0;
        while slot.next != null
          invariant k < |entries| && slot == entries[k] && Chained(k)
          decreases |entries| - k
        {
          assert k + 1 < |entries| ==> Chained(k + 1);
          slot := slot.next;
          k := k + 1;
        }
        slot.next := op;
      }
      entries := entries + [op];
      forall k: nat | k < |entries|
        ensures Chained(k)
      {
        assert k < |old(entries)| ==> old(Chained(k));
      }
    }

    /** Walks to the slot that points to `op`, or to the end. */
    method Locate(op: Entry) returns (before: Entry?, slot: Entry?, ghost k: nat)
      requires Valid()
      ensures k <= |entries| && slot == Node(k) && before == (if k == 0 then null else entries[k - 1])
      ensures (slot == null || slot == op) && forall j :: 0 <= j < k ==> entries[j] != op
    {
      before, slot, k := null, head, 0;
      while slot != null && slot != op
        invariant k <= |entries| && slot == Node(k) && before == (if k == 0 then null else entries[k - 1])
        invariant forall j :: 0 <= j < k ==> entries[j] != op
        decreases |entries| - k
      {
        assert Chained(k);
        before := slot;
        slot := slot.next;
        k := k + 1;
      }
    }

    /** Makes the slot before entry `k` point past it. */
    method CutAt(before: Entry?, slot: Entry, ghost k: nat)
      requires Valid() && k < |entries| && slot == entries[k] && before == if k == 0 then null else entries[k - 1]
      modifies this, entries`next
      ensures Valid() && entries == old(entries)[..k] + old(entries)[k + 1..]
    {
      ghost var was := entries;
      assert Chained(k);
      if before == null {
        head := slot.next;
      } else {
        before.next := slot.next;
      }
      entries := entries[..k] + entries[k + 1..];
      forall j: nat | j < |entries|
        ensures Chained(j)
      {
        assert old(Chained(j)) && (j + 1 < |was| ==> old(Chained(j + 1)));
      }
    }

    /** Unlinks `op`; an operation that is not listed is left. */
    method Unlink(op: Entry)
      requires Valid() && (op !in entries ==> op.id !in Ids())
      modifies this, entries`next
      ensures Valid() && Ids() == Without(old(Ids()), op.id) && op !in entries
    {
      hide Without;
      var before, slot, k := Locate(op);
      assert forall j :: 0 <= j < k ==> Ids()[j] != op.id;
      WithoutAt(Ids(), op.id, k);
      if slot != null {
        CutAt(before, slot, k);
      }
    }

    /** Adds a reference to every registered operation and returns the last one. */
    method PinAll() returns (last: Entry?)
      requires Valid()
      modifies entries`references
      ensures Valid() && Ids() == old(Ids())
      ensures forall e :: e in entries ==> e.references == old(e.references) + 1
      ensures last == if entries == [] then null else entries[|entries| - 1]
    {
      last := null;
      var slot := head;
      ghost var k := 0;
      while slot != null
        invariant k <= |entries| && slot == Node(k) && Valid()
        invariant last == if k == 0 then null else entries[k - 1]
        invariant forall j :: 0 <= j < |entries| ==>
                    entries[j].references == old(entries[j].references) + if j < k then 1 else 0
        decreases |entries| - k
      {
        assert Chained(k);
        slot.references := slot.references + 1;
        last := slot;
        slot := slot.next;
        k := k + 1;
      }
    }

    /** Drops one reference; the last one unlinks. `freed` tells the caller the memory is gone. */
    method Unref(op: Entry) returns (freed: bool)
      requires Valid() && op.references > 0 && (op !in entries ==> op.id !in Ids())
      modifies this, entries`next, op`references
      ensures Valid() && freed == (old(op.references) == 1)
      ensures op.references == old(op.references) - 1
      ensures Ids() == if freed then Without(old(Ids()), op.id) else old(Ids())
    {
      op.references := op.references - 1;
      freed := op.references == 0;
      if freed {
        Unlink(op);
      }
    }
  }

  /** Removing the first occurrence cuts the list there. */
  lemma {:induction false} WithoutAt(xs: seq<Id>, x: Id, k: nat)
    requires k <= |xs| && (k < |xs| ==> xs[k] == x) && forall j :: 0 <= j < k ==> xs[j] != x
    ensures Without(xs, x) == if k < |xs| then xs[..k] + xs[k + 1..] else xs
    decreases |xs|
  {
    if k > 0 {
      var rest := xs[1..];
      WithoutAt(rest, x, k - 1);
      if k < |xs| {
        assert [xs[0]] + (rest[..k - 1] + rest[k..]) == xs[..k] + xs[k + 1..];
      }
    }
  }
}
