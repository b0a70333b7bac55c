/** Bit strings, most significant bit first, and the numbers they stand for. */
module Bits {

  function Pow2(n: nat): (p: nat)
    ensures p > 0
  {
    if n == 0 then 1 else 2 * Pow2(n - 1)
  }

  function Bit(b: bool): nat {
    if b then 1 else 0
  }

  function ToNat(b: seq<bool>): nat {
    if b == [] then 0 else 2 * ToNat(b[..|b| - 1]) + Bit(b[|b| - 1])
  }

  function FromNat(v: nat, w: nat): (b: seq<bool>)
    ensures |b| == w
  {
    if w == 0 then [] else FromNat(v / 2, w - 1) + [v % 2 == 1]
  }

  /** A number fits into `w` signed bits. */
  predicate FitsInt(v: int, w: nat)
    requires w > 0
  {
    0 <= v + Pow2(w - 1) < Pow2(w)
  }

  /** Two's complement of a signed number in `w` bits. */
  function FromInt(v: int, w: nat): (b: seq<bool>)
    requires w > 0 && FitsInt(v, w)
    ensures |b| == w
  {
    FromNat(if v < 0 then v + Pow2(w) else v, w)
  }

  function ToInt(b: seq<bool>): int {
    if b != [] && b[0] then ToNat(b) - Pow2(|b|) else ToNat(b)
  }

  lemma {:induction false} ToNatBound(b: seq<bool>)
    ensures ToNat(b) < Pow2(|b|)
  {
    if b != [] {
      ToNatBound(b[..|b| - 1]);
    }
  }

  lemma {:induction false} ToFrom(v: nat, w: nat)
    requires v < Pow2(w)
    ensures ToNat(FromNat(v, w)) == v
  {
    if w > 0 {
      assert v / 2 < Pow2(w - 1) && v == 2 * (v / 2) + v % 2;
      ToFrom(v / 2, w - 1);
      var b := FromNat(v, w);
      assert b[..w - 1] == FromNat(v / 2, w - 1) && b[w - 1] == (v % 2 == 1);
    }
  }

  lemma MulDouble(a: nat, b: nat)
    ensures a * (2 * b) == 2 * (a * b)
  {
  }

  lemma {:induction false} PowSum(a: nat, b: nat)
    ensures Pow2(a + b) == Pow2(a) * Pow2(b)
  {
    if b > 0 {
      PowSum(a, b - 1);
      MulDouble(Pow2(a), Pow2(b - 1));
    }
  }

  lemma {:induction false} ToNatConcat(a: seq<bool>, b: seq<bool>)
    ensures ToNat(a + b) == ToNat(a) * Pow2(|b|) + ToNat(b)
  {
    if b == [] {
      assert a + b == a;
    } else {
      var init := b[..|b| - 1];
      assert (a + b)[..|a + b| - 1] == a + init && (a + b)[|a + b| - 1] == b[|b| - 1];
      ToNatConcat(a, init);
      ConcatStep(ToNat(a), Pow2(|init|), ToNat(init), ToNat(a + init));
    }
  }

  lemma ConcatStep(t: nat, q: nat, n: nat, r: nat)
    requires r == t * q + n
    ensures 2 * r == t * (2 * q) + 2 * n
  {
    MulDouble(t, q);
  }

  /** The sign bit is the first bit. */
  lemma TopBit(b: seq<bool>)
    requires b != []
    ensures b[0] <==> ToNat(b) >= Pow2(|b| - 1)
  {
    assert b == [b[0]] + b[1..];
    ToNatConcat([b[0]], b[1..]);
    ToNatBound(b[1..]);
    assert ToNat([b[0]]) == Bit(b[0]);
    assert Bit(b[0]) * Pow2(|b| - 1) == if b[0] then Pow2(|b| - 1) else 0;
  }

  lemma SignedRoundTrip(v: int, w: nat)
    requires w > 0 && FitsInt(v, w)
    ensures ToInt(FromInt(v, w)) == v
    ensures FromInt(v, w)[0] <==> v < 0
  {
    var b := FromInt(v, w);
    ToFrom(if v < 0 then v + Pow2(w) else v, w);
    TopBit(b);
  }
}
