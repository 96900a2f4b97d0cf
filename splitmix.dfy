/** The two seed expanders, `SplitMix` (64-bit) and `SplitMix32`.

    Each holds one word of state. `next()` first advances the state and then
    returns a fixed xor-shift/multiply mix of the new state alone. The
    generators use them only to turn one seed into their first state words.

    The 64-bit expander's state is kept as an integer below 2^64 with the
    wrap-around of its addition written out, so that the state after `n` calls
    has a closed form in plain integer arithmetic; it is read as a 64-bit word
    only when it is mixed. */
module SeedExpanders {
  import opened Streams

  /** An unsigned 64-bit integer (`uint64_t`) as a number. */
  newtype uint64 = x: int | 0 <= x < 0x1_0000_0000_0000_0000

  // ---------------------------------------------------------------------------
  // Xor-shifts and odd multipliers, the building blocks of both mixes

  /** `z ^ (z >> 30)` on a 64-bit word, the first stage of the 64-bit mix. */
  function XorShr64By30(z: bv64): bv64
  {
    z ^ (z >> 30)
  }

  /** `z ^ (z >> 27)` on a 64-bit word. */
  function XorShr64By27(z: bv64): bv64
  {
    z ^ (z >> 27)
  }

  /** `z ^ (z >> 31)` on a 64-bit word, the last stage of the 64-bit mix. */
  function XorShr64By31(z: bv64): bv64
  {
    z ^ (z >> 31)
  }

  /** Undoes `XorShr64By30`: the bits shifted in twice are xored out again
      (a third shift would leave the word). */
  function UnXorShr64By30(z: bv64): bv64
  {
    z ^ (z >> 30) ^ (z >> 60)
  }

  /** Undoes `XorShr64By27`. */
  function UnXorShr64By27(z: bv64): bv64
  {
    z ^ (z >> 27) ^ (z >> 54)
  }

  /** Undoes `XorShr64By31`. */
  function UnXorShr64By31(z: bv64): bv64
  {
    z ^ (z >> 31) ^ (z >> 62)
  }

  /** Each xor-shift of the 64-bit mix is undone by its partner. */
  lemma UndoXorShr64(z: bv64)
    ensures UnXorShr64By30(XorShr64By30(z)) == z
    ensures UnXorShr64By27(XorShr64By27(z)) == z
    ensures UnXorShr64By31(XorShr64By31(z)) == z
  {
    assert XorShr64By30(z) == z ^ (z >> 30);
    assert UnXorShr64By30(z ^ (z >> 30)) == z;
    assert XorShr64By27(z) == z ^ (z >> 27);
    assert UnXorShr64By27(z ^ (z >> 27)) == z;
    assert XorShr64By31(z) == z ^ (z >> 31);
    assert UnXorShr64By31(z ^ (z >> 31)) == z;
  }

  /** Each xor-shift of the 64-bit mix undoes its partner, so every word is
      the image of some word. */
  lemma RedoXorShr64(z: bv64)
    ensures XorShr64By30(UnXorShr64By30(z)) == z
    ensures XorShr64By27(UnXorShr64By27(z)) == z
    ensures XorShr64By31(UnXorShr64By31(z)) == z
  {
    assert UnXorShr64By30(z) == z ^ (z >> 30) ^ (z >> 60);
    assert XorShr64By30(z ^ (z >> 30) ^ (z >> 60)) == z;
    assert UnXorShr64By27(z) == z ^ (z >> 27) ^ (z >> 54);
    assert XorShr64By27(z ^ (z >> 27) ^ (z >> 54)) == z;
    assert UnXorShr64By31(z) == z ^ (z >> 31) ^ (z >> 62);
    assert XorShr64By31(z ^ (z >> 31) ^ (z >> 62)) == z;
  }

  /** `z ^ (z >> 15)` on a 32-bit word, the first and last stage of the
      32-bit mix. */
  function XorShr32By15(z: bv32): bv32
  {
    z ^ (z >> 15)
  }

  /** `z ^ (z >> 13)` on a 32-bit word. */
  function XorShr32By13(z: bv32): bv32
  {
    z ^ (z >> 13)
  }

  /** Undoes `XorShr32By15`. */
  function UnXorShr32By15(z: bv32): bv32
  {
    z ^ (z >> 15) ^ (z >> 30)
  }

  /** Undoes `XorShr32By13`. */
  function UnXorShr32By13(z: bv32): bv32
  {
    z ^ (z >> 13) ^ (z >> 26)
  }

  /** Each xor-shift of the 32-bit mix is undone by its partner. */
  lemma UndoXorShr32(z: bv32)
    ensures UnXorShr32By15(XorShr32By15(z)) == z
    ensures UnXorShr32By13(XorShr32By13(z)) == z
  {
    assert XorShr32By15(z) == z ^ (z >> 15);
    assert UnXorShr32By15(z ^ (z >> 15)) == z;
    assert XorShr32By13(z) == z ^ (z >> 13);
    assert UnXorShr32By13(z ^ (z >> 13)) == z;
  }

  /** Each xor-shift of the 32-bit mix undoes its partner. */
  lemma RedoXorShr32(z: bv32)
    ensures XorShr32By15(UnXorShr32By15(z)) == z
    ensures XorShr32By13(UnXorShr32By13(z)) == z
  {
    assert UnXorShr32By15(z) == z ^ (z >> 15) ^ (z >> 30);
    assert XorShr32By15(z ^ (z >> 15) ^ (z >> 30)) == z;
    assert UnXorShr32By13(z) == z ^ (z >> 13) ^ (z >> 26);
    assert XorShr32By13(z ^ (z >> 13) ^ (z >> 26)) == z;
  }

  /** The first multiplier of the 64-bit mix. */
  function MixA64(z: bv64): bv64
  {
    z * 0xbf58476d1ce4e5b9
  }

  /** The second multiplier of the 64-bit mix. */
  function MixB64(z: bv64): bv64
  {
    z * 0x94d049bb133111eb
  }

  /** Multiplication by the inverse of 0xbf58476d1ce4e5b9 modulo 2^64. */
  function UnmixA64(z: bv64): bv64
  {
    z * 0x96de1b173f119089
  }

  /** Multiplication by the inverse of 0x94d049bb133111eb modulo 2^64. */
  function UnmixB64(z: bv64): bv64
  {
    z * 0x319642b2d24d8ec3
  }

  /** Both multipliers of the 64-bit mix are odd, hence undone by their
      inverses. */
  lemma UndoMix64Multipliers(z: bv64)
    ensures UnmixA64(MixA64(z)) == z
    ensures UnmixB64(MixB64(z)) == z
  {
    assert MixA64(z) == z * 0xbf58476d1ce4e5b9;
    assert UnmixA64(z * 0xbf58476d1ce4e5b9) == z;
    assert MixB64(z) == z * 0x94d049bb133111eb;
    assert UnmixB64(z * 0x94d049bb133111eb) == z;
  }

  /** The inverse multipliers of the 64-bit mix are undone by the
      multipliers. */
  lemma RedoMix64Multipliers(z: bv64)
    ensures MixA64(UnmixA64(z)) == z
    ensures MixB64(UnmixB64(z)) == z
  {
    assert UnmixA64(z) == z * 0x96de1b173f119089;
    assert MixA64(z * 0x96de1b173f119089) == z;
    assert UnmixB64(z) == z * 0x319642b2d24d8ec3;
    assert MixB64(z * 0x319642b2d24d8ec3) == z;
  }

  /** The first multiplier of the 32-bit mix. */
  function MixA32(z: bv32): bv32
  {
    z * 0x5ce4e5b9
  }

  /** The second multiplier of the 32-bit mix. */
  function MixB32(z: bv32): bv32
  {
    z * 0x1331c1eb
  }

  /** Multiplication by the inverse of 0x5ce4e5b9 modulo 2^32. */
  function UnmixA32(z: bv32): bv32
  {
    z * 0xff119089
  }

  /** Multiplication by the inverse of 0x1331c1eb modulo 2^32. */
  function UnmixB32(z: bv32): bv32
  {
    z * 0x556f5ec3
  }

  /** Both multipliers of the 32-bit mix are odd, hence undone by their
      inverses. */
  lemma UndoMix32Multipliers(z: bv32)
    ensures UnmixA32(MixA32(z)) == z
    ensures UnmixB32(MixB32(z)) == z
  {
    assert MixA32(z) == z * 0x5ce4e5b9;
    assert UnmixA32(z * 0x5ce4e5b9) == z;
    assert MixB32(z) == z * 0x1331c1eb;
    assert UnmixB32(z * 0x1331c1eb) == z;
  }

  /** The inverse multipliers of the 32-bit mix are undone by the
      multipliers. */
  lemma RedoMix32Multipliers(z: bv32)
    ensures MixA32(UnmixA32(z)) == z
    ensures MixB32(UnmixB32(z)) == z
  {
    assert UnmixA32(z) == z * 0xff119089;
    assert MixA32(z * 0xff119089) == z;
    assert UnmixB32(z) == z * 0x556f5ec3;
    assert MixB32(z * 0x556f5ec3) == z;
  }

  // ---------------------------------------------------------------------------
  // 64-bit expander

  /** How `SplitMix::next` advances its state: add 0x9e3779b97f4a7c15,
      wrapping modulo 2^64. */
  function Advance64(s: uint64): uint64
  {
    ((s as int + 0x9e3779b97f4a7c15) % 0x1_0000_0000_0000_0000) as uint64
  }

  /** The output mix of `SplitMix::next`, applied to the already advanced
      state: xor-shift by 30, multiply, xor-shift by 27, multiply, xor-shift
      by 31. */
  function Mix64(z: bv64): bv64
  {
    XorShr64By31(MixB64(XorShr64By27(MixA64(XorShr64By30(z)))))
  }

  /** The inverse of `Mix64`, undoing its five stages in reverse order. */
  function Unmix64(r: bv64): bv64
  {
    UnXorShr64By30(UnmixA64(UnXorShr64By27(UnmixB64(UnXorShr64By31(r)))))
  }

  /** What `SplitMix::next` returns when called in state `s`. */
  function Draw64(s: uint64): bv64
  {
    Mix64(Advance64(s) as bv64)
  }

  /** The output mix loses nothing: `Unmix64` recovers the mixed word. */
  lemma Mix64Inverse(z: bv64)
    ensures Unmix64(Mix64(z)) == z
  {
    var a := MixA64(XorShr64By30(z));
    var b := MixB64(XorShr64By27(a));
    UndoXorShr64(b);
    UndoMix64Multipliers(XorShr64By27(a));
    UndoXorShr64(a);
    UndoMix64Multipliers(XorShr64By30(z));
    UndoXorShr64(z);
  }

  /** The output mix reaches every word: `Mix64` of `Unmix64(r)` is `r`. */
  lemma Mix64Surjective(r: bv64)
    ensures Mix64(Unmix64(r)) == r
  {
    var a := UnmixB64(UnXorShr64By31(r));
    var b := UnmixA64(UnXorShr64By27(a));
    RedoXorShr64(r);
    RedoMix64Multipliers(UnXorShr64By31(r));
    RedoXorShr64(a);
    RedoMix64Multipliers(UnXorShr64By27(a));
    RedoXorShr64(b);
  }

  /** Distinct states are mixed into distinct outputs. */
  lemma Mix64Injective(z1: bv64, z2: bv64)
    ensures Mix64(z1) == Mix64(z2) <==> z1 == z2
  {
    Mix64Inverse(z1);
    Mix64Inverse(z2);
  }

  /** Adding `n + 1` multiples of the constant is adding `n` of them, reducing,
      then adding one more and reducing. */
  lemma AddOneMore(a: int, n: nat)
    ensures ((a + n * 0x9e3779b97f4a7c15) % 0x1_0000_0000_0000_0000 + 0x9e3779b97f4a7c15)
              % 0x1_0000_0000_0000_0000
         == (a + (n + 1) * 0x9e3779b97f4a7c15) % 0x1_0000_0000_0000_0000
  {
    var t := a + n * 0x9e3779b97f4a7c15;
    var q := t / 0x1_0000_0000_0000_0000;
    assert t % 0x1_0000_0000_0000_0000 + 0x9e3779b97f4a7c15
        == (t + 0x9e3779b97f4a7c15) - q * 0x1_0000_0000_0000_0000;
    DropMultiple(t + 0x9e3779b97f4a7c15, q);
  }

  /** Subtracting a multiple of 2^64 does not change a residue. */
  lemma DropMultiple(x: int, q: int)
    ensures (x - q * 0x1_0000_0000_0000_0000) % 0x1_0000_0000_0000_0000
         == x % 0x1_0000_0000_0000_0000
  {
  }

  /** The increment is odd, so `n` times it is a multiple of 2^64 for no `n`
      strictly between 0 and 2^64: multiplying by its inverse modulo 2^64,
      0xf1de83e19937733d, takes `n * increment` back to `n`. */
  lemma NoShortMultiple(n: int)
    requires 0 < n < 0x1_0000_0000_0000_0000
    ensures (n * 0x9e3779b97f4a7c15) % 0x1_0000_0000_0000_0000 != 0
  {
    var r := (n * 0x9e3779b97f4a7c15) % 0x1_0000_0000_0000_0000;
    var q := (n * 0x9e3779b97f4a7c15) / 0x1_0000_0000_0000_0000;
    assert 0x9e3779b97f4a7c15 * 0xf1de83e19937733d
        == 1 + 10771413168148108919 * 0x1_0000_0000_0000_0000;
    var k := q * 0xf1de83e19937733d - n * 10771413168148108919;
    assert r * 0xf1de83e19937733d == n - k * 0x1_0000_0000_0000_0000 by {
      assert n * 0x9e3779b97f4a7c15 == q * 0x1_0000_0000_0000_0000 + r;
      assert n * (0x9e3779b97f4a7c15 * 0xf1de83e19937733d)
          == (q * 0x1_0000_0000_0000_0000 + r) * 0xf1de83e19937733d;
    }
    DropMultiple(n, k);
  }

  /** The state `s + n * 0x9e3779b97f4a7c15` modulo 2^64. */
  function SplitMixState(s: uint64, n: nat): uint64
  {
    ((s as int + n * 0x9e3779b97f4a7c15) % 0x1_0000_0000_0000_0000) as uint64
  }

  /** After `n` calls of `next()` on `SplitMix(s)` the state is
      `s + n * 0x9e3779b97f4a7c15` modulo 2^64. */
  lemma {:induction false} SplitMixStateAfter(s: uint64, n: nat)
    ensures Iterate(Advance64, s, n) == SplitMixState(s, n)
  {
    if n > 0 {
      IterateLast(Advance64, s, n - 1);
      SplitMixStateAfter(s, n - 1);
      AddOneMore(s as int, n - 1);
    }
  }

  /** 2^64 is the least period of `SplitMix`: fewer calls never bring the
      state back to the seed. */
  lemma SplitMixNoShorterPeriod(s: uint64, n: nat)
    requires 0 < n < 0x1_0000_0000_0000_0000
    ensures Iterate(Advance64, s, n) != s
  {
    SplitMixStateAfter(s, n);
    NoShortMultiple(n);
    var r := (n * 0x9e3779b97f4a7c15) % 0x1_0000_0000_0000_0000;
    var q := (n * 0x9e3779b97f4a7c15) / 0x1_0000_0000_0000_0000;
    assert s as int + n * 0x9e3779b97f4a7c15 - q * 0x1_0000_0000_0000_0000 == s as int + r;
    DropMultiple(s as int + n * 0x9e3779b97f4a7c15, q);
  }

  /** Adding 2^64 multiples of the constant brings a residue back to itself. */
  lemma FullTurn(a: int)
    requires 0 <= a < 0x1_0000_0000_0000_0000
    ensures (a + 0x1_0000_0000_0000_0000 * 0x9e3779b97f4a7c15) % 0x1_0000_0000_0000_0000 == a
  {
    DropMultiple(a, -0x9e3779b97f4a7c15);
  }

  /** After 2^64 calls the 64-bit expander is back at its seed. */
  lemma SplitMixPeriod(s: uint64)
    ensures Iterate(Advance64, s, 0x1_0000_0000_0000_0000) == s
  {
    SplitMixStateAfter(s, 0x1_0000_0000_0000_0000);
    FullTurn(s as int);
    assert SplitMixState(s, 0x1_0000_0000_0000_0000) as int == s as int;
  }

  /** The 64-bit expander seen from outside: with state `s`, the `i`-th value
      handed out is the mix of `s + (i + 1) * 0x9e3779b97f4a7c15` modulo 2^64. */
  lemma SplitMixOutputAt(s: uint64, n: nat, i: nat)
    requires i < n
    ensures Outputs(Advance64, Draw64, s, n)[i] == Draw64(SplitMixState(s, i))
  {
    OutputsAt(Advance64, Draw64, s, n, i);
    SplitMixStateAfter(s, i);
  }

  /** The 64-bit seed expander. */
  class SplitMix {
    var state: uint64

    /** `SplitMix(state)` stores the seed verbatim. */
    constructor (seed: uint64)
      ensures state == seed
    {
      state := seed;
    }

    /** Advance by the golden constant, then return the mix of the new state. */
    method Next() returns (r: bv64)
      modifies this
      ensures state == Advance64(old(state))
      ensures r == Mix64(state as bv64)
      ensures r == Draw64(old(state))
    {
      state := ((state as int + 0x9e3779b97f4a7c15) % 0x1_0000_0000_0000_0000) as uint64;
      r := Mix64(state as bv64);
    }
  }

  // ---------------------------------------------------------------------------
  // 32-bit expander

  /** Multiplication by 1664525 modulo 2^32. */
  function Lcg32(z: bv32): bv32
  {
    1664525 * z
  }

  /** Multiplication by the inverse of 1664525 modulo 2^32. */
  function UnLcg32(z: bv32): bv32
  {
    0xfee058c5 * z
  }

  /** 1664525 is odd, hence undone by its inverse, in either order. */
  lemma UndoLcg32(z: bv32)
    ensures UnLcg32(Lcg32(z)) == z
    ensures Lcg32(UnLcg32(z)) == z
  {
    assert Lcg32(z) == 1664525 * z;
    assert UnLcg32(1664525 * z) == z;
    assert UnLcg32(z) == 0xfee058c5 * z;
    assert Lcg32(0xfee058c5 * z) == z;
  }

  /** Addition of 314159265 modulo 2^32. */
  function Inc32(z: bv32): bv32
  {
    z + 314159265
  }

  /** Subtraction of 314159265 modulo 2^32. */
  function Dec32(z: bv32): bv32
  {
    z - 314159265
  }

  /** Adding and subtracting the increment cancel, in either order. */
  lemma UndoInc32(z: bv32)
    ensures Dec32(Inc32(z)) == z
    ensures Inc32(Dec32(z)) == z
  {
    assert Inc32(z) == z + 314159265;
    assert Dec32(z + 314159265) == z;
    assert Dec32(z) == z - 314159265;
    assert Inc32(z - 314159265) == z;
  }

  /** How `SplitMix32::next` advances its state: add 314159265, then multiply
      by 1664525, both modulo 2^32. */
  function Step32(s: bv32): bv32
  {
    Lcg32(Inc32(s))
  }

  /** The inverse of `Step32`: multiply by the inverse of 1664525, then take
      the increment back off. */
  function Unstep32(t: bv32): bv32
  {
    Dec32(UnLcg32(t))
  }

  /** The 32-bit expander's step is a bijection on words: `Unstep32` undoes it
      and is undone by it. */
  lemma Step32Inverse(s: bv32)
    ensures Unstep32(Step32(s)) == s
    ensures Step32(Unstep32(s)) == s
  {
    UndoLcg32(Inc32(s));
    UndoInc32(s);
    UndoLcg32(s);
    UndoInc32(UnLcg32(s));
  }

  /** The step flips the lowest bit (an odd increment, then an odd
      multiplier), so the 32-bit expander never stays in place. */
  lemma Step32FlipsParity(s: bv32)
    ensures Step32(s) & 1 != s & 1
    ensures Step32(s) != s
  {
    assert Lcg32(s + 314159265) == 1664525 * (s + 314159265);
  }

  /** The output mix of `SplitMix32::next`, applied to the already advanced
      state: xor-shift by 15, multiply, xor-shift by 13, multiply, xor-shift
      by 15. */
  function Mix32(z: bv32): bv32
  {
    XorShr32By15(MixB32(XorShr32By13(MixA32(XorShr32By15(z)))))
  }

  /** The inverse of `Mix32`. */
  function Unmix32(r: bv32): bv32
  {
    UnXorShr32By15(UnmixA32(UnXorShr32By13(UnmixB32(UnXorShr32By15(r)))))
  }

  /** What `SplitMix32::next` returns when called in state `s`. */
  function Draw32(s: bv32): bv32
  {
    Mix32(Step32(s))
  }

  /** The 32-bit output mix loses nothing. */
  lemma Mix32Inverse(z: bv32)
    ensures Unmix32(Mix32(z)) == z
  {
    var a := MixA32(XorShr32By15(z));
    var b := MixB32(XorShr32By13(a));
    UndoXorShr32(b);
    UndoMix32Multipliers(XorShr32By13(a));
    UndoXorShr32(a);
    UndoMix32Multipliers(XorShr32By15(z));
    UndoXorShr32(z);
  }

  /** The 32-bit output mix reaches every word. */
  lemma Mix32Surjective(r: bv32)
    ensures Mix32(Unmix32(r)) == r
  {
    var a := UnmixB32(UnXorShr32By15(r));
    var b := UnmixA32(UnXorShr32By13(a));
    RedoXorShr32(r);
    RedoMix32Multipliers(UnXorShr32By15(r));
    RedoXorShr32(a);
    RedoMix32Multipliers(UnXorShr32By13(a));
    RedoXorShr32(b);
  }

  /** Distinct states are mixed into distinct outputs. */
  lemma Mix32Injective(z1: bv32, z2: bv32)
    ensures Mix32(z1) == Mix32(z2) <==> z1 == z2
  {
    Mix32Inverse(z1);
    Mix32Inverse(z2);
  }

  /** Two successive values of the 32-bit expander always differ: the states
      they mix differ in their lowest bit. */
  lemma SplitMix32Successive(s: bv32)
    ensures Draw32(s) != Draw32(Step32(s))
  {
    Step32FlipsParity(Step32(s));
    Mix32Injective(Step32(s), Step32(Step32(s)));
  }

  /** The 32-bit seed expander. */
  class SplitMix32 {
    var state: bv32

    /** `SplitMix32(state)` stores the seed verbatim. */
    constructor (seed: bv32)
      ensures state == seed
    {
      state := seed;
    }

    /** Advance by the multiplicative step, then return the mix of the new
        state. */
    method Next() returns (r: bv32)
      modifies this
      ensures state == Step32(old(state))
      ensures r == Mix32(state)
      ensures r == Draw32(old(state))
    {
      state := Lcg32(Inc32(state));
      r := Mix32(state);
    }
  }
}
