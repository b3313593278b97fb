/**
 Comparison of secrets (sdk/src/secrets.rs): a fold over the bytes that takes the same
 steps wherever they differ.
 */
module Secrets {
  import opened Prelude
  import opened BitOps

  /** The OR of the byte differences so far. */
  function Difference(a: seq<byte>, b: seq<byte>, diff: nat): nat
    requires |a| == |b|
    decreases |a|
  {
    if a == [] then diff else Difference(a[1..], b[1..], Or(diff, Xor(a[0], b[0])))
  }

  predicate ConstantTimeEq(a: string, b: string) {
    var x, y := Utf8(a), Utf8(b);
    |x| == |y| && Difference(x, y, 0) == 0
  }

  lemma {:induction false} DifferenceIsZero(a: seq<byte>, b: seq<byte>, diff: nat)
    requires |a| == |b|
    ensures Difference(a, b, diff) == 0 <==> diff == 0 && a == b
    decreases |a|
  {
    hide Or, Xor;
    if a != [] {
      DifferenceIsZero(a[1..], b[1..], Or(diff, Xor(a[0], b[0])));
      OrIsZero(diff, Xor(a[0], b[0]));
      XorIsZero(a[0], b[0]);
      assert a == [a[0]] + a[1..] && b == [b[0]] + b[1..];
    }
  }

  /** The OR of the byte XORs is zero for equal secrets only: the comparison is equality. */
  lemma ConstantTimeEqIsEquality(a: string, b: string)
    ensures ConstantTimeEq(a, b) <==> a == b
  {
    var x, y := Utf8(a), Utf8(b);
    if |x| == |y| {
      DifferenceIsZero(x, y, 0);
      if x == y {
        Utf8Injective(a, b);
      }
    }
  }
}
