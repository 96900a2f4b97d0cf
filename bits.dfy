/** Word arithmetic shared by every Romu generator, for the two word widths
    the generators use: wrapping addition and subtraction of unsigned words,
    and the `ROTL(d, lrot)` macro with its partner, the rotation to the right.

    The macro shifts `d` left by `lrot` and ORs in `d` shifted right by the word
    width minus `lrot`. That is a rotation only when the amount lies strictly
    between 0 and the width: a shift by the full width or more (or the unsigned
    underflow of `width - lrot`) is undefined behaviour in C++, so `Rotl64`,
    `Rotl32` and their partners demand `0 < k < width`. Trio32's second call
    site passes 44 on a 32-bit word and cannot meet that demand.

    For every amount a generator passes, a lemma states that the macro agrees
    with the built-in rotation and that rotating right by the same amount
    undoes it, in either order.

    `Add64`, `Sub64`, `Add32` and `Sub32` are the plain wrapping `+` and `-`
    under a name, and each rotation amount has a lemma of its own rather than
    one lemma for every amount. Both choices keep the bit-vector reasoning
    small: the generators' inverse proofs then only combine these named facts
    (one cancellation, one rotation) instead of asking the solver to reason
    about a whole update of several words at once, or about a rotation by an
    amount that is not a literal. */
module RomuBits {

  /** `a + b` on 64-bit words, wrapping modulo 2^64. */
  function Add64(a: bv64, b: bv64): bv64
  {
    a + b
  }

  /** `a - b` on 64-bit words, wrapping modulo 2^64. */
  function Sub64(a: bv64, b: bv64): bv64
  {
    a - b
  }

  /** `(a + b) - a == b` with wrap-around. */
  lemma SubAddLeft64(a: bv64, b: bv64)
    ensures Sub64(Add64(a, b), a) == b
  {
    assert Add64(a, b) == a + b;
    assert Sub64(a + b, a) == b;
  }

  /** `(a + b) - b == a` with wrap-around. */
  lemma SubAddRight64(a: bv64, b: bv64)
    ensures Sub64(Add64(a, b), b) == a
  {
    assert Add64(a, b) == a + b;
    assert Sub64(a + b, b) == a;
  }

  /** `a - (a - b) == b` with wrap-around. */
  lemma SubSub64(a: bv64, b: bv64)
    ensures Sub64(a, Sub64(a, b)) == b
  {
    assert Sub64(a, b) == a - b;
    assert Sub64(a, a - b) == b;
  }

  /** `a + (b - a) == b` with wrap-around. */
  lemma AddSubLeft64(a: bv64, b: bv64)
    ensures Add64(a, Sub64(b, a)) == b
  {
    assert Sub64(b, a) == b - a;
    assert Add64(a, b - a) == b;
  }

  /** `(a - b) + b == a` with wrap-around. */
  lemma AddSubRight64(a: bv64, b: bv64)
    ensures Add64(Sub64(a, b), b) == a
  {
    assert Sub64(a, b) == a - b;
    assert Add64(a - b, b) == a;
  }

  /** `a + b` on 32-bit words, wrapping modulo 2^32. */
  function Add32(a: bv32, b: bv32): bv32
  {
    a + b
  }

  /** `a - b` on 32-bit words, wrapping modulo 2^32. */
  function Sub32(a: bv32, b: bv32): bv32
  {
    a - b
  }

  /** `(a + b) - a == b` with wrap-around. */
  lemma SubAddLeft32(a: bv32, b: bv32)
    ensures Sub32(Add32(a, b), a) == b
  {
    assert Add32(a, b) == a + b;
    assert Sub32(a + b, a) == b;
  }

  /** `(a + b) - b == a` with wrap-around. */
  lemma SubAddRight32(a: bv32, b: bv32)
    ensures Sub32(Add32(a, b), b) == a
  {
    assert Add32(a, b) == a + b;
    assert Sub32(a + b, b) == a;
  }

  /** `a - (a - b) == b` with wrap-around. */
  lemma SubSub32(a: bv32, b: bv32)
    ensures Sub32(a, Sub32(a, b)) == b
  {
    assert Sub32(a, b) == a - b;
    assert Sub32(a, a - b) == b;
  }

  /** `a + (b - a) == b` with wrap-around. */
  lemma AddSubLeft32(a: bv32, b: bv32)
    ensures Add32(a, Sub32(b, a)) == b
  {
    assert Sub32(b, a) == b - a;
    assert Add32(a, b - a) == b;
  }

  /** `(a - b) + b == a` with wrap-around. */
  lemma AddSubRight32(a: bv32, b: bv32)
    ensures Add32(Sub32(a, b), b) == a
  {
    assert Sub32(a, b) == a - b;
    assert Add32(a - b, b) == a;
  }

  /** ROTL on a 64-bit word, written the way the macro expands. */
  function Rotl64(d: bv64, k: nat): bv64
    requires 0 < k < 64
  {
    (d << k) | (d >> (64 - k))
  }

  /** Rotation to the right on a 64-bit word, the partner of `Rotl64`. */
  function Rotr64(d: bv64, k: nat): bv64
    requires 0 < k < 64
  {
    (d >> k) | (d << (64 - k))
  }

  /** ROTL on a 32-bit word, written the way the macro expands. */
  function Rotl32(d: bv32, k: nat): bv32
    requires 0 < k < 32
  {
    (d << k) | (d >> (32 - k))
  }

  /** Rotation to the right on a 32-bit word, the partner of `Rotl32`. */
  function Rotr32(d: bv32, k: nat): bv32
    requires 0 < k < 32
  {
    (d >> k) | (d << (32 - k))
  }

  /** ROTL by 52 on a 64-bit word (used by Quad) is a rotation, undone by
      rotating right by 52. */
  lemma Rotate64By52(d: bv64)
    ensures Rotl64(d, 52) == d.RotateLeft(52)
    ensures Rotr64(Rotl64(d, 52), 52) == d
    ensures Rotl64(Rotr64(d, 52), 52) == d
  {
    assert Rotl64(d, 52) == (d << 52) | (d >> 12);
    assert (d << 52) | (d >> 12) == d.RotateLeft(52);
    assert Rotr64((d << 52) | (d >> 12), 52) == d;
    assert Rotr64(d, 52) == (d >> 52) | (d << 12);
    assert Rotl64((d >> 52) | (d << 12), 52) == d;
  }

  /** ROTL by 19 on a 64-bit word (used by Quad) is a rotation, undone by
      rotating right by 19. */
  lemma Rotate64By19(d: bv64)
    ensures Rotl64(d, 19) == d.RotateLeft(19)
    ensures Rotr64(Rotl64(d, 19), 19) == d
    ensures Rotl64(Rotr64(d, 19), 19) == d
  {
    assert Rotl64(d, 19) == (d << 19) | (d >> 45);
    assert (d << 19) | (d >> 45) == d.RotateLeft(19);
    assert Rotr64((d << 19) | (d >> 45), 19) == d;
    assert Rotr64(d, 19) == (d >> 19) | (d << 45);
    assert Rotl64((d >> 19) | (d << 45), 19) == d;
  }

  /** ROTL by 12 on a 64-bit word (used by Trio) is a rotation, undone by
      rotating right by 12. */
  lemma Rotate64By12(d: bv64)
    ensures Rotl64(d, 12) == d.RotateLeft(12)
    ensures Rotr64(Rotl64(d, 12), 12) == d
    ensures Rotl64(Rotr64(d, 12), 12) == d
  {
    assert Rotl64(d, 12) == (d << 12) | (d >> 52);
    assert (d << 12) | (d >> 52) == d.RotateLeft(12);
    assert Rotr64((d << 12) | (d >> 52), 12) == d;
    assert Rotr64(d, 12) == (d >> 12) | (d << 52);
    assert Rotl64((d >> 12) | (d << 52), 12) == d;
  }

  /** ROTL by 44 on a 64-bit word (used by Trio) is a rotation, undone by
      rotating right by 44. */
  lemma Rotate64By44(d: bv64)
    ensures Rotl64(d, 44) == d.RotateLeft(44)
    ensures Rotr64(Rotl64(d, 44), 44) == d
    ensures Rotl64(Rotr64(d, 44), 44) == d
  {
    assert Rotl64(d, 44) == (d << 44) | (d >> 20);
    assert (d << 44) | (d >> 20) == d.RotateLeft(44);
    assert Rotr64((d << 44) | (d >> 20), 44) == d;
    assert Rotr64(d, 44) == (d >> 44) | (d << 20);
    assert Rotl64((d >> 44) | (d << 20), 44) == d;
  }

  /** ROTL by 36 on a 64-bit word (used by Duo) is a rotation, undone by
      rotating right by 36. */
  lemma Rotate64By36(d: bv64)
    ensures Rotl64(d, 36) == d.RotateLeft(36)
    ensures Rotr64(Rotl64(d, 36), 36) == d
    ensures Rotl64(Rotr64(d, 36), 36) == d
  {
    assert Rotl64(d, 36) == (d << 36) | (d >> 28);
    assert (d << 36) | (d >> 28) == d.RotateLeft(36);
    assert Rotr64((d << 36) | (d >> 28), 36) == d;
    assert Rotr64(d, 36) == (d >> 36) | (d << 28);
    assert Rotl64((d >> 36) | (d << 28), 36) == d;
  }

  /** ROTL by 15 on a 64-bit word (used by Duo) is a rotation, undone by
      rotating right by 15. */
  lemma Rotate64By15(d: bv64)
    ensures Rotl64(d, 15) == d.RotateLeft(15)
    ensures Rotr64(Rotl64(d, 15), 15) == d
    ensures Rotl64(Rotr64(d, 15), 15) == d
  {
    assert Rotl64(d, 15) == (d << 15) | (d >> 49);
    assert (d << 15) | (d >> 49) == d.RotateLeft(15);
    assert Rotr64((d << 15) | (d >> 49), 15) == d;
    assert Rotr64(d, 15) == (d >> 15) | (d << 49);
    assert Rotl64((d >> 15) | (d << 49), 15) == d;
  }

  /** ROTL by 27 on a 64-bit word (used by DuoJr) is a rotation, undone by
      rotating right by 27. */
  lemma Rotate64By27(d: bv64)
    ensures Rotl64(d, 27) == d.RotateLeft(27)
    ensures Rotr64(Rotl64(d, 27), 27) == d
    ensures Rotl64(Rotr64(d, 27), 27) == d
  {
    assert Rotl64(d, 27) == (d << 27) | (d >> 37);
    assert (d << 27) | (d >> 37) == d.RotateLeft(27);
    assert Rotr64((d << 27) | (d >> 37), 27) == d;
    assert Rotr64(d, 27) == (d >> 27) | (d << 37);
    assert Rotl64((d >> 27) | (d << 37), 27) == d;
  }

  /** ROTL by 26 on a 32-bit word (used by Quad32) is a rotation, undone by
      rotating right by 26. */
  lemma Rotate32By26(d: bv32)
    ensures Rotl32(d, 26) == d.RotateLeft(26)
    ensures Rotr32(Rotl32(d, 26), 26) == d
    ensures Rotl32(Rotr32(d, 26), 26) == d
  {
    assert Rotl32(d, 26) == (d << 26) | (d >> 6);
    assert (d << 26) | (d >> 6) == d.RotateLeft(26);
    assert Rotr32((d << 26) | (d >> 6), 26) == d;
    assert Rotr32(d, 26) == (d >> 26) | (d << 6);
    assert Rotl32((d >> 26) | (d << 6), 26) == d;
  }

  /** ROTL by 9 on a 32-bit word (used by Quad32) is a rotation, undone by
      rotating right by 9. */
  lemma Rotate32By9(d: bv32)
    ensures Rotl32(d, 9) == d.RotateLeft(9)
    ensures Rotr32(Rotl32(d, 9), 9) == d
    ensures Rotl32(Rotr32(d, 9), 9) == d
  {
    assert Rotl32(d, 9) == (d << 9) | (d >> 23);
    assert (d << 9) | (d >> 23) == d.RotateLeft(9);
    assert Rotr32((d << 9) | (d >> 23), 9) == d;
    assert Rotr32(d, 9) == (d >> 9) | (d << 23);
    assert Rotl32((d >> 9) | (d << 23), 9) == d;
  }

  /** ROTL by 12 on a 32-bit word (used by Mono32) is a rotation, undone by
      rotating right by 12. */
  lemma Rotate32By12(d: bv32)
    ensures Rotl32(d, 12) == d.RotateLeft(12)
    ensures Rotr32(Rotl32(d, 12), 12) == d
    ensures Rotl32(Rotr32(d, 12), 12) == d
  {
    assert Rotl32(d, 12) == (d << 12) | (d >> 20);
    assert (d << 12) | (d >> 20) == d.RotateLeft(12);
    assert Rotr32((d << 12) | (d >> 20), 12) == d;
    assert Rotr32(d, 12) == (d >> 12) | (d << 20);
    assert Rotl32((d >> 12) | (d << 20), 12) == d;
  }
}
