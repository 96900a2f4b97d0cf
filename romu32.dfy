/** The 32-bit Romu generators: `Quad32`, `Trio32` and `Mono32`.

    `Quad32` has the shape of `Quad` on 32-bit words with its own multiplier
    and rotations. `Trio32` is modelled through its constructors, `seed` and
    `state`; its `next` rotates a 32-bit word by 44, outside the range in
    which the rotation macro is defined, and is not part of this model.
    `Mono32` holds a single 32-bit word, seeds it into a fixed range and
    reports the upper half of the word before each step. */
module Romu32 {
  import opened Streams
  import opened RomuBits
  import opened SeedExpanders

  /** A state of four or three 32-bit words. */
  type Words4 = s: seq<bv32> | |s| == 4 witness [0, 0, 0, 0]
  type Words3 = s: seq<bv32> | |s| == 3 witness [0, 0, 0]
  type Words2 = s: seq<bv32> | |s| == 2 witness [0, 0]

  /** The all-zero four-word state. */
  const Zero4: Words4 := [0, 0, 0, 0]

  /** The two words `seed(s)` stores: the first two values of
      `SplitMix32(s)`. */
  function SeedWords(s: bv32): Words2
  {
    Outputs(Step32, Draw32, s, 2)
  }

  /** The seed words are the expander's first two values, and they always
      differ, so a seeded state is never all zero. */
  lemma SeedWordsAre(s: bv32)
    ensures SeedWords(s) == [Draw32(s), Draw32(Step32(s))]
    ensures SeedWords(s)[0] != SeedWords(s)[1]
  {
    SplitMix32Successive(s);
  }

  // ===========================================================================
  // Quad32

  /** Multiplication by the Romu constant 3323815723 modulo 2^32. */
  function TimesC2(z: bv32): bv32
  {
    3323815723 * z
  }

  /** Multiplication by the inverse of 3323815723 modulo 2^32. */
  function TimesC2Inv(z: bv32): bv32
  {
    0x33621f83 * z
  }

  /** 3323815723 is odd: its multiplication is undone by its inverse's, in
      either order. */
  lemma UndoTimesC2(z: bv32)
    ensures TimesC2Inv(TimesC2(z)) == z
    ensures TimesC2(TimesC2Inv(z)) == z
  {
    assert TimesC2(z) == 3323815723 * z;
    assert TimesC2Inv(3323815723 * z) == z;
    assert TimesC2Inv(z) == 0x33621f83 * z;
    assert TimesC2(0x33621f83 * z) == z;
  }

  /** `Quad32::next` on state (w, x, y, z): (C2 z, z + ROTL(w, 26), y - x,
      ROTL(y + w, 9)). */
  function Quad32Step(s: Words4): Words4
  {
    [TimesC2(s[3]), Add32(s[3], Rotl32(s[0], 26)), Sub32(s[2], s[1]), Rotl32(Add32(s[2], s[0]), 9)]
  }

  /** `Quad32::next` returns the old `x`, the second word. */
  function Quad32Output(s: Words4): bv32
  {
    s[1]
  }

  /** Recovers the state before a `Quad32` step from the state after it. */
  function Quad32Back(t: Words4): Words4
  {
    var z := TimesC2Inv(t[0]);
    var w := Rotr32(Sub32(t[1], z), 26);
    var y := Sub32(Rotr32(t[3], 9), w);
    [w, Sub32(y, t[2]), y, z]
  }

  /** `Quad32Back` undoes `Quad32Step`. */
  lemma Quad32BackOfStep(s: Words4)
    ensures Quad32Back(Quad32Step(s)) == s
  {
    var w, x, y, z := s[0], s[1], s[2], s[3];
    var t := Quad32Step(s);
    UndoTimesC2(z);
    assert TimesC2Inv(t[0]) == z;
    SubAddLeft32(z, Rotl32(w, 26));
    Rotate32By26(w);
    assert Rotr32(Sub32(t[1], z), 26) == w;
    Rotate32By9(Add32(y, w));
    SubAddRight32(y, w);
    assert Sub32(Rotr32(t[3], 9), w) == y;
    SubSub32(y, x);
    assert Sub32(y, t[2]) == x;
  }

  /** `Quad32Step` undoes `Quad32Back`: with `Quad32BackOfStep`, the update is
      a bijection on states. */
  lemma Quad32StepOfBack(s: Words4)
    ensures Quad32Step(Quad32Back(s)) == s
  {
    var z := TimesC2Inv(s[0]);
    var w := Rotr32(Sub32(s[1], z), 26);
    var y := Sub32(Rotr32(s[3], 9), w);
    var x := Sub32(y, s[2]);
    assert Quad32Back(s) == [w, x, y, z];
    UndoTimesC2(s[0]);
    assert TimesC2(z) == s[0];
    Rotate32By26(Sub32(s[1], z));
    AddSubLeft32(z, s[1]);
    assert Add32(z, Rotl32(w, 26)) == s[1];
    SubSub32(y, s[2]);
    assert Sub32(y, x) == s[2];
    AddSubRight32(Rotr32(s[3], 9), w);
    Rotate32By9(s[3]);
    assert Rotl32(Add32(y, w), 9) == s[3];
  }

  /** The all-zero state is a fixed point of `Quad32::next`, and from it every
      call returns 0. */
  lemma {:induction false} Quad32ZeroStream(n: nat)
    ensures Quad32Step(Zero4) == Zero4
    ensures Iterate(Quad32Step, Zero4, n) == Zero4
    ensures Outputs(Quad32Step, Quad32Output, Zero4, n) == seq(n, i => 0)
  {
    Rotate32By26(0);
    Rotate32By9(0);
    FixedPointStream(Quad32Step, Quad32Output, Zero4, n);
  }

  /** A `Quad32` not started in the all-zero state never reaches it. */
  lemma Quad32NeverZero(s: Words4, n: nat)
    requires s != Zero4
    ensures Iterate(Quad32Step, s, n) != Zero4
  {
    forall x: Words4
      ensures Quad32Back(Quad32Step(x)) == x
    {
      Quad32BackOfStep(x);
    }
    Quad32ZeroStream(0);
    AvoidsFixedPoint(Quad32Step, Quad32Back, Zero4, s, n);
  }

  /** Whatever the other two words hold, a `Quad32` right after `seed(s)`
      never reaches the all-zero state, because the two seed words differ. */
  lemma Quad32SeededNeverZero(s: bv32, rest: seq<bv32>, n: nat)
    requires |rest| == 2
    ensures Iterate<Words4>(Quad32Step, SeedWords(s) + rest, n) != Zero4
  {
    SeedWordsAre(s);
    var start: Words4 := SeedWords(s) + rest;
    assert start[0] != start[1];
    Quad32NeverZero(start, n);
  }

  /** The four-word 32-bit Romu generator. */
  class Quad32 {
    /** `m_state`: w, x, y, z. */
    const m: array<bv32>

    ghost predicate Valid()
      reads this
    {
      m.Length == 4
    }

    /** `Quad32(w, x, y, z)` stores the words verbatim and in order. */
    constructor (w: bv32, x: bv32, y: bv32, z: bv32)
      ensures Valid() && fresh(m)
      ensures m[..] == [w, x, y, z]
    {
      m := new bv32[4];
      new;
      m[0] := w;
      m[1] := x;
      m[2] := y;
      m[3] := z;
    }

    /** `Quad32(state)` copies a four-word state verbatim and in order. */
    constructor FromState(state: Words4)
      ensures Valid() && fresh(m)
      ensures m[..] == state
    {
      m := new bv32[4](i requires 0 <= i < 4 => state[i]);
    }

    /** `seed(s)` overwrites the first two words with the first two values of
        `SplitMix32(s)` and leaves y and z as they were. */
    method Seed(s: bv32)
      requires Valid()
      modifies m
      ensures m[..] == SeedWords(s) + old(m[..])[2..]
    {
      ghost var rest := m[2..];
      var smix := new SplitMix32(s);
      var a := smix.Next();
      m[0] := a;
      var b := smix.Next();
      m[1] := b;
      SeedWordsAre(s);
      assert m[..] == [a, b] + rest;
    }

    /** `state()` returns a copy of the current words and changes nothing. */
    method State() returns (r: Words4)
      requires Valid()
      ensures r == m[..]
    {
      r := m[..];
    }

    /** `next()` performs one `Quad32Step` and returns the old second word. */
    method Next() returns (r: bv32)
      requires Valid()
      modifies m
      ensures m[..] == Quad32Step(old(m[..]))
      ensures r == Quad32Output(old(m[..]))
    {
      var wp, xp, yp, zp := m[0], m[1], m[2], m[3];
      ghost var s: Words4 := m[..];
      assert Quad32Step(s) == [TimesC2(zp), Add32(zp, Rotl32(wp, 26)), Sub32(yp, xp), Rotl32(Add32(yp, wp), 9)];
      m[0] := TimesC2(zp);
      m[1] := Add32(zp, Rotl32(wp, 26));
      m[2] := Sub32(yp, xp);
      m[3] := Add32(yp, wp);
      m[3] := Rotl32(m[3], 9);
      r := xp;
      assert m[..] == [TimesC2(zp), Add32(zp, Rotl32(wp, 26)), Sub32(yp, xp), Rotl32(Add32(yp, wp), 9)];
    }
  }

  // ===========================================================================
  // Trio32

  /** The three-word 32-bit Romu generator, without its `next`. */
  class Trio32 {
    /** `m_state`: x, y, z. */
    const m: array<bv32>

    ghost predicate Valid()
      reads this
    {
      m.Length == 3
    }

    /** `Trio32(w, x, y)` stores the words verbatim and in order. */
    constructor (w: bv32, x: bv32, y: bv32)
      ensures Valid() && fresh(m)
      ensures m[..] == [w, x, y]
    {
      m := new bv32[3];
      new;
      m[0] := w;
      m[1] := x;
      m[2] := y;
    }

    /** `Trio32(state)` copies a three-word state verbatim and in order. */
    constructor FromState(state: Words3)
      ensures Valid() && fresh(m)
      ensures m[..] == state
    {
      m := new bv32[3](i requires 0 <= i < 3 => state[i]);
    }

    /** `seed(s)` overwrites the first two words with the first two values of
        `SplitMix32(s)` and leaves the third as it was. */
    method Seed(s: bv32)
      requires Valid()
      modifies m
      ensures m[..] == SeedWords(s) + old(m[..])[2..]
    {
      ghost var rest := m[2..];
      var smix := new SplitMix32(s);
      var a := smix.Next();
      m[0] := a;
      var b := smix.Next();
      m[1] := b;
      SeedWordsAre(s);
      assert m[..] == [a, b] + rest;
    }

    /** `state()` returns a copy of the current words and changes nothing. */
    method State() returns (r: Words3)
      requires Valid()
      ensures r == m[..]
    {
      r := m[..];
    }
  }

  // ===========================================================================
  // Mono32

  /** Multiplication by the Romu constant 3611795771 modulo 2^32. */
  function TimesC3(z: bv32): bv32
  {
    3611795771 * z
  }

  /** Multiplication by the inverse of 3611795771 modulo 2^32. */
  function TimesC3Inv(z: bv32): bv32
  {
    0xccb68ff3 * z
  }

  /** 3611795771 is odd: its multiplication is undone by its inverse's, in
      either order. */
  lemma UndoTimesC3(z: bv32)
    ensures TimesC3Inv(TimesC3(z)) == z
    ensures TimesC3(TimesC3Inv(z)) == z
  {
    assert TimesC3(z) == 3611795771 * z;
    assert TimesC3Inv(3611795771 * z) == z;
    assert TimesC3Inv(z) == 0xccb68ff3 * z;
    assert TimesC3(0xccb68ff3 * z) == z;
  }

  /** The state `Mono32(s)` and `seed(s)` set: the low 29 bits of the seed
      plus 1156979152. */
  function MonoSeed(s: bv32): bv32
  {
    (s & 0x1fffffff) + 1156979152
  }

  /** The seeded state never wraps around: it lies in [1156979152,
      1693850063], both ends are reached, and taking the offset back off
      gives exactly the masked seed. In particular it is never zero. */
  lemma MonoSeedRange(s: bv32)
    ensures 1156979152 <= MonoSeed(s) <= 1693850063
    ensures MonoSeed(s) - 1156979152 == s & 0x1fffffff
    ensures MonoSeed(0) == 1156979152
    ensures MonoSeed(0xFFFFFFFF) == 1693850063
  {
    assert MonoSeed(s) == (s & 0x1fffffff) + 1156979152;
  }

  /** `Mono32::next` on state s: ROTL(C3 s, 12). */
  function MonoStep(s: bv32): bv32
  {
    Rotl32(TimesC3(s), 12)
  }

  /** `Mono32::next` returns the upper 16 bits of the old state. */
  function MonoOutput(s: bv32): bv16
  {
    (s >> 16) as bv16
  }

  /** The output is the old state shifted right by 16, which always fits in
      16 bits, and it is exactly the upper half of the state. */
  lemma MonoOutputIsHighHalf(s: bv32)
    ensures MonoOutput(s) as bv32 == s >> 16
    ensures MonoOutput(s) as bv32 < 0x1_0000
    ensures (MonoOutput(s) as bv32) << 16 == s & 0xFFFF0000
  {
    assert MonoOutput(s) == (s >> 16) as bv16;
  }

  /** Recovers the state before a `Mono32` step from the state after it. */
  function MonoBack(t: bv32): bv32
  {
    TimesC3Inv(Rotr32(t, 12))
  }

  /** `MonoBack` undoes `MonoStep` and `MonoStep` undoes `MonoBack`: the
      update is a bijection on words. */
  lemma MonoInverse(s: bv32)
    ensures MonoBack(MonoStep(s)) == s
    ensures MonoStep(MonoBack(s)) == s
  {
    UndoTimesC3(s);
    Rotate32By12(TimesC3(s));
    assert MonoBack(MonoStep(s)) == TimesC3Inv(TimesC3(s));
    UndoTimesC3(Rotr32(s, 12));
    Rotate32By12(s);
    assert MonoStep(MonoBack(s)) == Rotl32(Rotr32(s, 12), 12);
  }

  /** Zero is a fixed point of `Mono32::next`, and from it every call returns
      0. */
  lemma {:induction false} MonoZeroStream(n: nat)
    ensures MonoStep(0) == 0
    ensures Iterate(MonoStep, 0, n) == 0
    ensures Outputs(MonoStep, MonoOutput, 0, n) == seq(n, i => 0)
  {
    Rotate32By12(0);
    FixedPointStream(MonoStep, MonoOutput, 0, n);
  }

  /** A seeded `Mono32` never reaches the zero fixed point. */
  lemma MonoSeededNeverZero(s: bv32, n: nat)
    ensures Iterate(MonoStep, MonoSeed(s), n) != 0
  {
    forall x: bv32
      ensures MonoBack(MonoStep(x)) == x
    {
      MonoInverse(x);
    }
    MonoSeedRange(s);
    MonoZeroStream(0);
    AvoidsFixedPoint(MonoStep, MonoBack, 0, MonoSeed(s), n);
  }

  /** The one-word 32-bit Romu generator with 16-bit output. */
  class Mono32 {
    /** `m_state`. */
    var m: bv32

    /** `Mono32(s)` seeds the state into its fixed range. */
    constructor (s: bv32)
      ensures m == MonoSeed(s)
    {
      m := (s & 0x1fffffff) + 1156979152;
    }

    /** `seed(s)` sets the state exactly as the constructor does. */
    method Seed(s: bv32)
      modifies this
      ensures m == MonoSeed(s)
    {
      m := (s & 0x1fffffff) + 1156979152;
    }

    /** `state()` returns the current word and changes nothing. */
    method State() returns (r: bv32)
      ensures r == m
    {
      r := m;
    }

    /** `next()` returns the upper half of the old state and performs one
        `MonoStep`. */
    method Next() returns (r: bv16)
      modifies this
      ensures m == MonoStep(old(m))
      ensures r == MonoOutput(old(m))
    {
      r := (m >> 16) as bv16;
      m := TimesC3(m);
      m := Rotl32(m, 12);
    }
  }
}
