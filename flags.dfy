/** Bit-flag enumerations: members valued 1, 2, 4, ... and the "any" mask
    that selects every member at once. */
module Flags {
  function Pow2(n: nat): (r: nat)
    ensures r >= 1
  {
    if n == 0 then 1 else 2 * Pow2(n - 1)
  }

  /** The flag values 2^0, 2^1, ..., 2^(n-1), in that order. */
  function FlagValues(n: nat): (r: seq<nat>)
    ensures |r| == n
    ensures forall i :: 0 <= i < n ==> r[i] == Pow2(i)
  {
    if n == 0 then [] else FlagValues(n - 1) + [Pow2(n - 1)]
  }

  lemma FlagValuesTo64()
    ensures FlagValues(7) == [1, 2, 4, 8, 16, 32, 64]
  {
    assert Pow2(6) == 64;
  }

  /** `max(values)`. */
  function Max(vs: seq<int>): (m: int)
    requires |vs| > 0
    ensures m in vs
    ensures forall i :: 0 <= i < |vs| ==> vs[i] <= m
  {
    if |vs| == 1 then vs[0]
    else
      var m := Max(vs[..|vs| - 1]);
      assert forall i :: 0 <= i < |vs| - 1 ==> vs[i] == vs[..|vs| - 1][i];
      if vs[|vs| - 1] > m then vs[|vs| - 1] else m
  }

  /** `cls.any()`: twice the largest member value, minus one. */
  function AnyMask(vs: seq<int>): (r: int)
    requires |vs| > 0
    ensures Max(vs) >= 1 ==> forall i :: 0 <= i < |vs| ==> vs[i] <= r
    ensures r < 2 * Max(vs)
  {
    2 * Max(vs) - 1
  }

  /** Bitwise `a | b` of two naturals. */
  function Or(a: nat, b: nat): nat
    decreases a + b
  {
    if a == 0 && b == 0 then 0
    else 2 * Or(a / 2, b / 2) + (if a % 2 == 1 || b % 2 == 1 then 1 else 0)
  }

  /** The bitwise union of every value, folded left to right. */
  function Union(vs: seq<nat>): nat
    decreases |vs|
  {
    if vs == [] then 0 else Or(Union(vs[..|vs| - 1]), vs[|vs| - 1])
  }

  lemma {:induction false} OrZero(a: nat)
    ensures Or(a, 0) == a && Or(0, a) == a
    decreases a
  {
    if a != 0 {
      OrZero(a / 2);
    }
  }

  /** Adding the next flag to the union of the lower flags sets one more bit. */
  lemma {:induction false} OrNextFlag(n: nat)
    ensures Or(Pow2(n) - 1, Pow2(n)) == Pow2(n + 1) - 1
    decreases n
  {
    if n == 0 {
      assert Or(0, 0) == 0;
    } else {
      var a, b := Pow2(n) - 1, Pow2(n);
      assert a / 2 == Pow2(n - 1) - 1 && a % 2 == 1;
      assert b / 2 == Pow2(n - 1);
      OrNextFlag(n - 1);
    }
  }

  /** The union of the flags 2^0 .. 2^(n-1) is 2^n - 1. */
  lemma {:induction false} UnionOfFlags(n: nat)
    ensures Union(FlagValues(n)) == Pow2(n) - 1
  {
    if n == 0 {
      assert FlagValues(n) == [];
    } else {
      UnionOfFlags(n - 1);
      UnionNextFlag(n);
    }
  }

  /** One induction step: the union of the first n flags from that of the
      first n - 1. */
  lemma UnionNextFlag(n: nat)
    requires n > 0 && Union(FlagValues(n - 1)) == Pow2(n - 1) - 1
    ensures Union(FlagValues(n)) == Pow2(n) - 1
  {
    var fs := FlagValues(n);
    assert fs[..n - 1] == FlagValues(n - 1);
    OrNextFlag(n - 1);
  }

  /** A member of value zero adds nothing to the union. */
  lemma {:induction false} UnionZeroFirst(vs: seq<nat>)
    ensures Union([0] + vs) == Union(vs)
    decreases |vs|
  {
    if vs == [] {
      OrZero(0);
      assert [0][..0] == [];
    } else {
      var n := |vs|;
      assert ([0] + vs)[..n] == [0] + vs[..n - 1];
      UnionZeroFirst(vs[..n - 1]);
    }
  }

  /** For a flag enumeration (one member per bit, and optionally a member
      of value zero), `2 * max - 1` is exactly the union of all members. */
  lemma AnyIsUnion(n: nat)
    requires n > 0
    ensures AnyMask(FlagValues(n)) == Union(FlagValues(n))
    ensures AnyMask([0] + FlagValues(n)) == Union([0] + FlagValues(n))
  {
    var fs := FlagValues(n);
    UnionOfFlags(n);
    UnionZeroFirst(fs);
    MaxOfFlags(n);
    MaxZeroFirst(fs);
    assert Pow2(n) == 2 * Pow2(n - 1);
  }

  /** The largest of the flags 2^0 .. 2^(n-1) is the last. */
  lemma MaxOfFlags(n: nat)
    requires n > 0
    ensures Max(FlagValues(n)) == Pow2(n - 1)
  {
    var fs := FlagValues(n);
    var m := Max(fs);
    PowMonotone(n - 1);
    var i :| 0 <= i < n && fs[i] == m;
    assert fs[n - 1] <= m;
  }

  /** A leading zero does not change the maximum of naturals. */
  lemma {:induction false} MaxZeroFirst(vs: seq<nat>)
    requires |vs| > 0
    ensures Max([0] + vs) == Max(vs)
    decreases |vs|
  {
    var w: seq<int> := [0] + vs;
    var n := |vs| - 1;
    assert w[..|w| - 1] == [0] + vs[..n];
    assert w[|w| - 1] == vs[n];
    if n > 0 {
      MaxZeroFirst(vs[..n]);
    } else {
      assert [0] + vs[..n] == [0];
    }
  }

  lemma {:induction false} PowMonotone(n: nat)
    ensures forall i :: 0 <= i <= n ==> Pow2(i) <= Pow2(n)
  {
    if n > 0 {
      PowMonotone(n - 1);
    }
  }
}
