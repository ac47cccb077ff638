/** Definitions shared by the models. */
module Common {
  datatype Option<+T> = None | Some(value: T)

  newtype Byte = b: int | 0 <= b < 256

  /** LP64 limits: size_t and unsigned long share one maximum. */
  const SIZE_MAX: nat := 0xFFFF_FFFF_FFFF_FFFF
  const LONG_MAX: nat := 0x7FFF_FFFF_FFFF_FFFF

  function Min(a: nat, b: nat): nat { if a < b then a else b }
  function Max(a: nat, b: nat): nat { if a < b then b else a }

  function Sum(xs: seq<nat>): nat {
    if xs == [] then 0 else Sum(xs[..|xs| - 1]) + xs[|xs| - 1]
  }

  ghost predicate Distinct(xs: seq<nat>) { forall i, j :: 0 <= i < j < |xs| ==> xs[i] != xs[j] }

  /** The list without the first occurrence of `x`. */
  function Without(xs: seq<nat>, x: nat): seq<nat> {
    if xs == [] then [] else if xs[0] == x then xs[1..] else [xs[0]] + Without(xs[1..], x)
  }

  /** From a list without repetition exactly `x` is removed, and no repetition appears. */
  lemma {:induction false} WithoutFacts(xs: seq<nat>, x: nat)
    requires Distinct(xs)
    ensures Distinct(Without(xs, x))
    ensures forall y :: y in Without(xs, x) <==> y in xs && y != x
    decreases |xs|
  {
    if xs != [] {
      var rest := xs[1..];
      assert Distinct(rest);
      WithoutFacts(rest, x);
      assert forall y :: y in xs <==> y == xs[0] || y in rest;
      assert xs[0] !in rest;
      if xs[0] != x {
        var tail := Without(rest, x);
        assert forall i :: 0 <= i < |tail| ==> tail[i] in tail;
      }
    }
  }
}
