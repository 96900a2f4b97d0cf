/** The four 64-bit Romu generators: `Quad`, `Trio`, `Duo` and `DuoJr`.

    Each object owns a fixed-size array of 64-bit words. `next()` (`random()`
    for `Duo`) reads every word first, writes each new word as a closed-form
    function of the words it read, and returns one of them. Here that update
    is the pure step function `QuadStep`, `TrioStep`, ... and each class
    method is proved to perform exactly it.

    Every step function is a bijection on states: a `...Back` function undoes
    it, in either order. Two consequences are proved for each generator: the
    all-zero state is a fixed point from which every call returns 0, and a
    generator that does not start in the all-zero state never reaches it. */
module Romu64 {
  import opened Streams
  import opened RomuBits
  import opened SeedExpanders

  /** A state of four, three or two 64-bit words. */
  type Words4 = s: seq<bv64> | |s| == 4 witness [0, 0, 0, 0]
  type Words3 = s: seq<bv64> | |s| == 3 witness [0, 0, 0]
  type Words2 = s: seq<bv64> | |s| == 2 witness [0, 0]

  /** The all-zero states. */
  const Zero4: Words4 := [0, 0, 0, 0]
  const Zero3: Words3 := [0, 0, 0]
  const Zero2: Words2 := [0, 0]

  /** Multiplication by the Romu constant 15241094284759029579 modulo 2^64. */
  function TimesC1(z: bv64): bv64
  {
    15241094284759029579 * z
  }

  /** Multiplication by the inverse of the Romu constant modulo 2^64. */
  function TimesC1Inv(z: bv64): bv64
  {
    0x43d68ed20cd1fa63 * z
  }

  /** The Romu constant is odd: its multiplication is undone by its inverse's,
      in either order. */
  lemma UndoTimesC1(z: bv64)
    ensures TimesC1Inv(TimesC1(z)) == z
    ensures TimesC1(TimesC1Inv(z)) == z
  {
    assert TimesC1(z) == 15241094284759029579 * z;
    assert TimesC1Inv(15241094284759029579 * z) == z;
    assert TimesC1Inv(z) == 0x43d68ed20cd1fa63 * z;
    assert TimesC1(0x43d68ed20cd1fa63 * z) == z;
  }

  /** The two words `seed(s)` stores: the first two values of `SplitMix(s)`. */
  function SeedWords(s: uint64): Words2
  {
    Outputs(Advance64, Draw64, s, 2)
  }

  /** The seed words are the expander's first two values, one after the
      other. */
  lemma SeedWordsAre(s: uint64)
    ensures SeedWords(s) == [Draw64(s), Draw64(Advance64(s))]
  {
    assert Outputs(Advance64, Draw64, Advance64(Advance64(s)), 0) == [];
  }

  // ===========================================================================
  // Quad

  /** `Quad::next` on state (w, x, y, z): (C1 z, z + ROTL(w, 52), y - x,
      ROTL(y + w, 19)). */
  function QuadStep(s: Words4): Words4
  {
    [TimesC1(s[3]), Add64(s[3], Rotl64(s[0], 52)), Sub64(s[2], s[1]), Rotl64(Add64(s[2], s[0]), 19)]
  }

  /** `Quad::next` returns the old `x`, the second word. */
  function QuadOutput(s: Words4): bv64
  {
    s[1]
  }

  /** Recovers the state before a `Quad` step from the state after it. */
  function QuadBack(t: Words4): Words4
  {
    var z := TimesC1Inv(t[0]);
    var w := Rotr64(Sub64(t[1], z), 52);
    var y := Sub64(Rotr64(t[3], 19), w);
    [w, Sub64(y, t[2]), y, z]
  }

  /** `QuadBack` undoes `QuadStep`. */
  lemma QuadBackOfStep(s: Words4)
    ensures QuadBack(QuadStep(s)) == s
  {
    var w, x, y, z := s[0], s[1], s[2], s[3];
    var t := QuadStep(s);
    UndoTimesC1(z);
    assert TimesC1Inv(t[0]) == z;
    SubAddLeft64(z, Rotl64(w, 52));
    Rotate64By52(w);
    assert Rotr64(Sub64(t[1], z), 52) == w;
    Rotate64By19(Add64(y, w));
    SubAddRight64(y, w);
    assert Sub64(Rotr64(t[3], 19), w) == y;
    SubSub64(y, x);
    assert Sub64(y, t[2]) == x;
  }

  /** `QuadStep` undoes `QuadBack`: with `QuadBackOfStep`, the update is a
      bijection on states. */
  lemma QuadStepOfBack(s: Words4)
    ensures QuadStep(QuadBack(s)) == s
  {
    var z := TimesC1Inv(s[0]);
    var w := Rotr64(Sub64(s[1], z), 52);
    var y := Sub64(Rotr64(s[3], 19), w);
    var x := Sub64(y, s[2]);
    assert QuadBack(s) == [w, x, y, z];
    UndoTimesC1(s[0]);
    assert TimesC1(z) == s[0];
    Rotate64By52(Sub64(s[1], z));
    AddSubLeft64(z, s[1]);
    assert Add64(z, Rotl64(w, 52)) == s[1];
    SubSub64(y, s[2]);
    assert Sub64(y, x) == s[2];
    AddSubRight64(Rotr64(s[3], 19), w);
    Rotate64By19(s[3]);
    assert Rotl64(Add64(y, w), 19) == s[3];
  }

  /** The all-zero state is a fixed point of `Quad::next`, and from it every
      call returns 0. */
  lemma {:induction false} QuadZeroStream(n: nat)
    ensures QuadStep(Zero4) == Zero4
    ensures Iterate(QuadStep, Zero4, n) == Zero4
    ensures Outputs(QuadStep, QuadOutput, Zero4, n) == seq(n, i => 0)
  {
    Rotate64By52(0);
    Rotate64By19(0);
    FixedPointStream(QuadStep, QuadOutput, Zero4, n);
  }

  /** A `Quad` not started in the all-zero state never reaches it. */
  lemma QuadNeverZero(s: Words4, n: nat)
    requires s != Zero4
    ensures Iterate(QuadStep, s, n) != Zero4
  {
    forall x: Words4
      ensures QuadBack(QuadStep(x)) == x
    {
      QuadBackOfStep(x);
    }
    QuadZeroStream(0);
    AvoidsFixedPoint(QuadStep, QuadBack, Zero4, s, n);
  }

  /** The four-word Romu generator. */
  class Quad {
    /** `m_state`: w, x, y, z. */
    const m: array<bv64>

    ghost predicate Valid()
      reads this
    {
      m.Length == 4
    }

    /** `Quad(w, x, y, z)` stores the words verbatim and in order. */
    constructor (w: bv64, x: bv64, y: bv64, z: bv64)
      ensures Valid() && fresh(m)
      ensures m[..] == [w, x, y, z]
    {
      m := new bv64[4];
      new;
      m[0] := w;
      m[1] := x;
      m[2] := y;
      m[3] := z;
    }

    /** `Quad(state)` copies a four-word state verbatim and in order. */
    constructor FromState(state: Words4)
      ensures Valid() && fresh(m)
      ensures m[..] == state
    {
      m := new bv64[4](i requires 0 <= i < 4 => state[i]);
    }

    /** `seed(s)` overwrites the first two words with the first two values of
        `SplitMix(s)` and leaves y and z as they were. */
    method Seed(s: uint64)
      requires Valid()
      modifies m
      ensures m[..] == SeedWords(s) + old(m[..])[2..]
    {
      ghost var rest := m[2..];
      var smix := new SplitMix(s);
      var a := smix.Next();
      assert a == Draw64(s);
      m[0] := a;
      var b := smix.Next();
      assert b == Draw64(Advance64(s));
      m[1] := b;
      SeedWordsAre(s);
      assert m[..] == [a, b] + rest;
    }

    /** `state()` returns a copy of the current words and changes nothing. */
    method State() returns (r: Words4)
      requires Valid()
      ensures r == m[..]
    {
      r := m[..];
    }

    /** `next()` performs one `QuadStep` and returns the old second word. */
    method Next() returns (r: bv64)
      requires Valid()
      modifies m
      ensures m[..] == QuadStep(old(m[..]))
      ensures r == QuadOutput(old(m[..]))
    {
      var wp, xp, yp, zp := m[0], m[1], m[2], m[3];
      ghost var s: Words4 := m[..];
      assert QuadStep(s) == [TimesC1(zp), Add64(zp, Rotl64(wp, 52)), Sub64(yp, xp), Rotl64(Add64(yp, wp), 19)];
      m[0] := TimesC1(zp);
      m[1] := Add64(zp, Rotl64(wp, 52));
      m[2] := Sub64(yp, xp);
      m[3] := Add64(yp, wp);
      m[3] := Rotl64(m[3], 19);
      r := xp;
      assert m[..] == [TimesC1(zp), Add64(zp, Rotl64(wp, 52)), Sub64(yp, xp), Rotl64(Add64(yp, wp), 19)];
    }
  }

  // ===========================================================================
  // Trio

  /** `Trio::next` on state (x, y, z): (C1 z, ROTL(y - x, 12),
      ROTL(z - y, 44)). */
  function TrioStep(s: Words3): Words3
  {
    [TimesC1(s[2]), Rotl64(Sub64(s[1], s[0]), 12), Rotl64(Sub64(s[2], s[1]), 44)]
  }

  /** `Trio::next` returns the old first word. */
  function TrioOutput(s: Words3): bv64
  {
    s[0]
  }

  /** Recovers the state before a `Trio` step from the state after it. */
  function TrioBack(t: Words3): Words3
  {
    var z := TimesC1Inv(t[0]);
    var y := Sub64(z, Rotr64(t[2], 44));
    [Sub64(y, Rotr64(t[1], 12)), y, z]
  }

  /** `TrioBack` undoes `TrioStep`. */
  lemma TrioBackOfStep(s: Words3)
    ensures TrioBack(TrioStep(s)) == s
  {
    var x, y, z := s[0], s[1], s[2];
    var t := TrioStep(s);
    UndoTimesC1(z);
    assert TimesC1Inv(t[0]) == z;
    Rotate64By44(Sub64(z, y));
    SubSub64(z, y);
    assert Sub64(z, Rotr64(t[2], 44)) == y;
    Rotate64By12(Sub64(y, x));
    SubSub64(y, x);
    assert Sub64(y, Rotr64(t[1], 12)) == x;
  }

  /** `TrioStep` undoes `TrioBack`: with `TrioBackOfStep`, the update is a
      bijection on states. */
  lemma TrioStepOfBack(s: Words3)
    ensures TrioStep(TrioBack(s)) == s
  {
    var z := TimesC1Inv(s[0]);
    var y := Sub64(z, Rotr64(s[2], 44));
    var x := Sub64(y, Rotr64(s[1], 12));
    assert TrioBack(s) == [x, y, z];
    UndoTimesC1(s[0]);
    assert TimesC1(z) == s[0];
    SubSub64(y, Rotr64(s[1], 12));
    Rotate64By12(s[1]);
    assert Rotl64(Sub64(y, x), 12) == s[1];
    SubSub64(z, Rotr64(s[2], 44));
    Rotate64By44(s[2]);
    assert Rotl64(Sub64(z, y), 44) == s[2];
  }

  /** The all-zero state is a fixed point of `Trio::next`, and from it every
      call returns 0. */
  lemma {:induction false} TrioZeroStream(n: nat)
    ensures TrioStep(Zero3) == Zero3
    ensures Iterate(TrioStep, Zero3, n) == Zero3
    ensures Outputs(TrioStep, TrioOutput, Zero3, n) == seq(n, i => 0)
  {
    Rotate64By12(0);
    Rotate64By44(0);
    FixedPointStream(TrioStep, TrioOutput, Zero3, n);
  }

  /** A `Trio` not started in the all-zero state never reaches it. */
  lemma TrioNeverZero(s: Words3, n: nat)
    requires s != Zero3
    ensures Iterate(TrioStep, s, n) != Zero3
  {
    forall x: Words3
      ensures TrioBack(TrioStep(x)) == x
    {
      TrioBackOfStep(x);
    }
    TrioZeroStream(0);
    AvoidsFixedPoint(TrioStep, TrioBack, Zero3, s, n);
  }

  /** The three-word Romu generator. */
  class Trio {
    /** `m_state`: x, y, z. */
    const m: array<bv64>

    ghost predicate Valid()
      reads this
    {
      m.Length == 3
    }

    /** `Trio(w, x, y)` stores the words verbatim and in order. */
    constructor (w: bv64, x: bv64, y: bv64)
      ensures Valid() && fresh(m)
      ensures m[..] == [w, x, y]
    {
      m := new bv64[3];
      new;
      m[0] := w;
      m[1] := x;
      m[2] := y;
    }

    /** `Trio(state)` copies a three-word state verbatim and in order. */
    constructor FromState(state: Words3)
      ensures Valid() && fresh(m)
      ensures m[..] == state
    {
      m := new bv64[3](i requires 0 <= i < 3 => state[i]);
    }

    /** `seed(s)` overwrites the first two words with the first two values of
        `SplitMix(s)` and leaves the third as it was. */
    method Seed(s: uint64)
      requires Valid()
      modifies m
      ensures m[..] == SeedWords(s) + old(m[..])[2..]
    {
      ghost var rest := m[2..];
      var smix := new SplitMix(s);
      var a := smix.Next();
      assert a == Draw64(s);
      m[0] := a;
      var b := smix.Next();
      assert b == Draw64(Advance64(s));
      m[1] := b;
      SeedWordsAre(s);
      assert m[..] == [a, b] + rest;
    }

    /** `state()` returns a copy of the current words and changes nothing. */
    method State() returns (r: Words3)
      requires Valid()
      ensures r == m[..]
    {
      r := m[..];
    }

    /** `next()` performs one `TrioStep` and returns the old first word. */
    method Next() returns (r: bv64)
      requires Valid()
      modifies m
      ensures m[..] == TrioStep(old(m[..]))
      ensures r == TrioOutput(old(m[..]))
    {
      var xp, yp, zp := m[0], m[1], m[2];
      ghost var s: Words3 := m[..];
      assert TrioStep(s) == [TimesC1(zp), Rotl64(Sub64(yp, xp), 12), Rotl64(Sub64(zp, yp), 44)];
      m[0] := TimesC1(zp);
      m[1] := Sub64(yp, xp);
      m[1] := Rotl64(m[1], 12);
      m[2] := Sub64(zp, yp);
      m[2] := Rotl64(m[2], 44);
      r := xp;
      assert m[..] == [TimesC1(zp), Rotl64(Sub64(yp, xp), 12), Rotl64(Sub64(zp, yp), 44)];
    }
  }

  // ===========================================================================
  // Duo

  /** `Duo::random` on state (x, y): (C1 y, ROTL(y, 36) + ROTL(y, 15) - x). */
  function DuoStep(s: Words2): Words2
  {
    [TimesC1(s[1]), Sub64(Add64(Rotl64(s[1], 36), Rotl64(s[1], 15)), s[0])]
  }

  /** `Duo::random` returns the old first word. */
  function DuoOutput(s: Words2): bv64
  {
    s[0]
  }

  /** Recovers the state before a `Duo` step from the state after it. */
  function DuoBack(t: Words2): Words2
  {
    var y := TimesC1Inv(t[0]);
    [Sub64(Add64(Rotl64(y, 36), Rotl64(y, 15)), t[1]), y]
  }

  /** `DuoBack` undoes `DuoStep`. */
  lemma DuoBackOfStep(s: Words2)
    ensures DuoBack(DuoStep(s)) == s
  {
    var x, y := s[0], s[1];
    var t := DuoStep(s);
    UndoTimesC1(y);
    assert TimesC1Inv(t[0]) == y;
    SubSub64(Add64(Rotl64(y, 36), Rotl64(y, 15)), x);
    assert Sub64(Add64(Rotl64(y, 36), Rotl64(y, 15)), t[1]) == x;
  }

  /** `DuoStep` undoes `DuoBack`: with `DuoBackOfStep`, the update is a
      bijection on states. */
  lemma DuoStepOfBack(s: Words2)
    ensures DuoStep(DuoBack(s)) == s
  {
    var y := TimesC1Inv(s[0]);
    var x := Sub64(Add64(Rotl64(y, 36), Rotl64(y, 15)), s[1]);
    assert DuoBack(s) == [x, y];
    UndoTimesC1(s[0]);
    assert TimesC1(y) == s[0];
    SubSub64(Add64(Rotl64(y, 36), Rotl64(y, 15)), s[1]);
    assert Sub64(Add64(Rotl64(y, 36), Rotl64(y, 15)), x) == s[1];
  }

  /** The all-zero state is a fixed point of `Duo::random`, and from it every
      call returns 0. */
  lemma {:induction false} DuoZeroStream(n: nat)
    ensures DuoStep(Zero2) == Zero2
    ensures Iterate(DuoStep, Zero2, n) == Zero2
    ensures Outputs(DuoStep, DuoOutput, Zero2, n) == seq(n, i => 0)
  {
    Rotate64By36(0);
    Rotate64By15(0);
    FixedPointStream(DuoStep, DuoOutput, Zero2, n);
  }

  /** A `Duo` not started in the all-zero state never reaches it. */
  lemma DuoNeverZero(s: Words2, n: nat)
    requires s != Zero2
    ensures Iterate(DuoStep, s, n) != Zero2
  {
    forall x: Words2
      ensures DuoBack(DuoStep(x)) == x
    {
      DuoBackOfStep(x);
    }
    DuoZeroStream(0);
    AvoidsFixedPoint(DuoStep, DuoBack, Zero2, s, n);
  }

  /** The two-word Romu generator. */
  class Duo {
    /** `m_state`: x, y. */
    const m: array<bv64>

    ghost predicate Valid()
      reads this
    {
      m.Length == 2
    }

    /** `Duo(w, x)` stores the words verbatim and in order. */
    constructor (w: bv64, x: bv64)
      ensures Valid() && fresh(m)
      ensures m[..] == [w, x]
    {
      m := new bv64[2];
      new;
      m[0] := w;
      m[1] := x;
    }

    /** `Duo(state)` copies a two-word state verbatim and in order. */
    constructor FromState(state: Words2)
      ensures Valid() && fresh(m)
      ensures m[..] == state
    {
      m := new bv64[2](i requires 0 <= i < 2 => state[i]);
    }

    /** `seed(s)` overwrites both words with the first two values of
        `SplitMix(s)`. */
    method Seed(s: uint64)
      requires Valid()
      modifies m
      ensures m[..] == SeedWords(s)
    {
      var smix := new SplitMix(s);
      var a := smix.Next();
      assert a == Draw64(s);
      m[0] := a;
      var b := smix.Next();
      assert b == Draw64(Advance64(s));
      m[1] := b;
      SeedWordsAre(s);
      assert m[..] == [a, b];
    }

    /** `state()` returns a copy of the current words and changes nothing. */
    method State() returns (r: Words2)
      requires Valid()
      ensures r == m[..]
    {
      r := m[..];
    }

    /** `random()` performs one `DuoStep` and returns the old first word. */
    method Random() returns (r: bv64)
      requires Valid()
      modifies m
      ensures m[..] == DuoStep(old(m[..]))
      ensures r == DuoOutput(old(m[..]))
    {
      var xp := m[0];
      var yp := m[1];
      ghost var s: Words2 := m[..];
      assert DuoStep(s) == [TimesC1(yp), Sub64(Add64(Rotl64(yp, 36), Rotl64(yp, 15)), xp)];
      m[0] := TimesC1(m[1]);
      m[1] := Sub64(Add64(Rotl64(m[1], 36), Rotl64(m[1], 15)), xp);
      r := xp;
      assert m[..] == [TimesC1(yp), Sub64(Add64(Rotl64(yp, 36), Rotl64(yp, 15)), xp)];
    }
  }

  // ===========================================================================
  // DuoJr

  /** `DuoJr::next` on state (x, y): (C1 y, ROTL(y - x, 27)). */
  function DuoJrStep(s: Words2): Words2
  {
    [TimesC1(s[1]), Rotl64(Sub64(s[1], s[0]), 27)]
  }

  /** `DuoJr::next` returns the old first word. */
  function DuoJrOutput(s: Words2): bv64
  {
    s[0]
  }

  /** Recovers the state before a `DuoJr` step from the state after it. */
  function DuoJrBack(t: Words2): Words2
  {
    var y := TimesC1Inv(t[0]);
    [Sub64(y, Rotr64(t[1], 27)), y]
  }

  /** `DuoJrBack` undoes `DuoJrStep`. */
  lemma DuoJrBackOfStep(s: Words2)
    ensures DuoJrBack(DuoJrStep(s)) == s
  {
    var x, y := s[0], s[1];
    var t := DuoJrStep(s);
    UndoTimesC1(y);
    assert TimesC1Inv(t[0]) == y;
    Rotate64By27(Sub64(y, x));
    SubSub64(y, x);
    assert Sub64(y, Rotr64(t[1], 27)) == x;
  }

  /** `DuoJrStep` undoes `DuoJrBack`: with `DuoJrBackOfStep`, the update is a
      bijection on states. */
  lemma DuoJrStepOfBack(s: Words2)
    ensures DuoJrStep(DuoJrBack(s)) == s
  {
    var y := TimesC1Inv(s[0]);
    var x := Sub64(y, Rotr64(s[1], 27));
    assert DuoJrBack(s) == [x, y];
    UndoTimesC1(s[0]);
    assert TimesC1(y) == s[0];
    SubSub64(y, Rotr64(s[1], 27));
    Rotate64By27(s[1]);
    assert Rotl64(Sub64(y, x), 27) == s[1];
  }

  /** The all-zero state is a fixed point of `DuoJr::next`, and from it every
      call returns 0. */
  lemma {:induction false} DuoJrZeroStream(n: nat)
    ensures DuoJrStep(Zero2) == Zero2
    ensures Iterate(DuoJrStep, Zero2, n) == Zero2
    ensures Outputs(DuoJrStep, DuoJrOutput, Zero2, n) == seq(n, i => 0)
  {
    Rotate64By27(0);
    FixedPointStream(DuoJrStep, DuoJrOutput, Zero2, n);
  }

  /** A `DuoJr` not started in the all-zero state never reaches it. */
  lemma DuoJrNeverZero(s: Words2, n: nat)
    requires s != Zero2
    ensures Iterate(DuoJrStep, s, n) != Zero2
  {
    forall x: Words2
      ensures DuoJrBack(DuoJrStep(x)) == x
    {
      DuoJrBackOfStep(x);
    }
    DuoJrZeroStream(0);
    AvoidsFixedPoint(DuoJrStep, DuoJrBack, Zero2, s, n);
  }

  /** The two-word Romu generator with the cheaper update. */
  class DuoJr {
    /** `m_state`: x, y. */
    const m: array<bv64>

    ghost predicate Valid()
      reads this
    {
      m.Length == 2
    }

    /** `DuoJr(w, x)` stores the words verbatim and in order. */
    constructor (w: bv64, x: bv64)
      ensures Valid() && fresh(m)
      ensures m[..] == [w, x]
    {
      m := new bv64[2];
      new;
      m[0] := w;
      m[1] := x;
    }

    /** `DuoJr(state)` copies a two-word state verbatim and in order. */
    constructor FromState(state: Words2)
      ensures Valid() && fresh(m)
      ensures m[..] == state
    {
      m := new bv64[2](i requires 0 <= i < 2 => state[i]);
    }

    /** `seed(s)` overwrites both words with the first two values of
        `SplitMix(s)`. */
    method Seed(s: uint64)
      requires Valid()
      modifies m
      ensures m[..] == SeedWords(s)
    {
      var smix := new SplitMix(s);
      var a := smix.Next();
      assert a == Draw64(s);
      m[0] := a;
      var b := smix.Next();
      assert b == Draw64(Advance64(s));
      m[1] := b;
      SeedWordsAre(s);
      assert m[..] == [a, b];
    }

    /** `state()` returns a copy of the current words and changes nothing. */
    method State() returns (r: Words2)
      requires Valid()
      ensures r == m[..]
    {
      r := m[..];
    }

    /** `next()` performs one `DuoJrStep` and returns the old first word. */
    method Next() returns (r: bv64)
      requires Valid()
      modifies m
      ensures m[..] == DuoJrStep(old(m[..]))
      ensures r == DuoJrOutput(old(m[..]))
    {
      var xp := m[0];
      var yp := m[1];
      ghost var s: Words2 := m[..];
      assert DuoJrStep(s) == [TimesC1(yp), Rotl64(Sub64(yp, xp), 27)];
      m[0] := TimesC1(m[1]);
      m[1] := Sub64(m[1], xp);
      m[1] := Rotl64(m[1], 27);
      r := xp;
      assert m[..] == [TimesC1(yp), Rotl64(Sub64(yp, xp), 27)];
    }
  }
}
