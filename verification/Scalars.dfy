/** Blinding factors, keys and nonces: integers modulo the order of the secp256k1 group.

    A public key is represented by its discrete logarithm, so that adding keys is adding
    scalars; a commitment `blind*G + value*H` is the pair (blind, value). */
module Scalars {
  // The order n of the secp256k1 base point (SEC 2, section 2.4.1).
  const ORDER: int := 0xFFFFFFFF_FFFFFFFF_FFFFFFFF_FFFFFFFE_BAAEDCE6_AF48A03B_BFD25E8C_D0364141

  type Scalar = x: int | 0 <= x < ORDER

  /** The representative of `x` modulo the order. */
  function Norm(x: int): Scalar
    decreases if x < 0 then ORDER - x else x
  {
    if x < 0 then Norm(x + ORDER)
    else if x < ORDER then x
    else Norm(x - ORDER)
  }

  lemma RemainderShift(x: int)
    ensures (x + ORDER) % ORDER == x % ORDER
  {
  }

  lemma {:induction false} NormIsRemainder(x: int)
    ensures Norm(x) == x % ORDER
    decreases if x < 0 then ORDER - x else x
  {
    if x < 0 {
      NormIsRemainder(x + ORDER);
      RemainderShift(x);
    } else if x >= ORDER {
      NormIsRemainder(x - ORDER);
      RemainderShift(x - ORDER);
    }
  }

  /** Reducing a summand first does not change a reduced sum. */
  lemma NormAdd(a: int, b: int)
    ensures Norm(Norm(a) + b) == Norm(a + b)
  {
    NormIsRemainder(a);
    NormIsRemainder(Norm(a) + b);
    NormIsRemainder(a + b);
  }

  lemma NormScalar(x: Scalar)
    ensures Norm(x) == x
  {
  }

  /** Reducing a factor first does not change a reduced product plus a summand. */
  lemma NormMul(k: int, e: int, x: int)
    ensures Norm(k + e * Norm(x)) == Norm(k + e * x)
  {
    NormIsRemainder(x);
    var q := x / ORDER;
    assert x == Norm(x) + ORDER * q;
    assert e * x == e * Norm(x) + ORDER * (e * q);
    NormShift(k + e * Norm(x), e * q);
  }

  lemma NormShift(a: int, m: int)
    ensures Norm(a + ORDER * m) == Norm(a)
  {
    NormIsRemainder(a);
    NormIsRemainder(a + ORDER * m);
  }

  /** Equal modulo the order exactly when the difference is a multiple of it. */
  lemma NormEq(a: int, b: int)
    ensures Norm(a) == Norm(b) <==> Norm(a - b) == 0
  {
    NormIsRemainder(a);
    NormIsRemainder(b);
    NormIsRemainder(a - b);
  }
}
