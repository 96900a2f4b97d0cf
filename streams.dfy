/** Stream-level view shared by the seed expanders and the generators.

    Every class in the library advances a fixed-size state by a deterministic
    step and reports one value computed from the state. `Iterate` is the state
    after `n` calls and `Outputs` the first `n` values reported, so facts about
    whole streams (replay from a saved state, fixed points, fixed points that an
    invertible step never reaches) are proved here once, for any step and output function. */
module Streams {

  /** The state after `n` calls of `step`, starting from `s`. */
  function Iterate<S>(step: S -> S, s: S, n: nat): S
  {
    if n == 0 then s else Iterate(step, step(s), n - 1)
  }

  /** The values reported by `n` successive calls that each report `out` of
      the current state and then advance it by `step` (output-then-advance). */
  function Outputs<S, O>(step: S -> S, out: S -> O, s: S, n: nat): (r: seq<O>)
    ensures |r| == n
  {
    if n == 0 then [] else [out(s)] + Outputs(step, out, step(s), n - 1)
  }

  /** One more call applies `step` to the state reached so far. */
  lemma {:induction false} IterateLast<S>(step: S -> S, s: S, n: nat)
    ensures Iterate(step, s, n + 1) == step(Iterate(step, s, n))
  {
    if n > 0 {
      IterateLast(step, step(s), n - 1);
    }
  }

  /** The `i`-th reported value is the output of the state after `i` calls. */
  lemma {:induction false} OutputsAt<S, O>(step: S -> S, out: S -> O, s: S, n: nat, i: nat)
    requires i < n
    ensures Outputs(step, out, s, n)[i] == out(Iterate(step, s, i))
  {
    if i > 0 {
      OutputsAt(step, out, step(s), n - 1, i - 1);
    }
  }

  /** Replay: the values reported after `n` calls are exactly the values that
      a fresh instance built from the state after `n` calls reports. Saving the
      state and rebuilding from it continues the same stream. */
  lemma {:induction false} OutputsSplit<S, O>(step: S -> S, out: S -> O, s: S, n: nat, k: nat)
    ensures Outputs(step, out, s, n + k)
         == Outputs(step, out, s, n) + Outputs(step, out, Iterate(step, s, n), k)
  {
    if n > 0 {
      OutputsSplit(step, out, step(s), n - 1, k);
      assert [out(s)] + (Outputs(step, out, step(s), n - 1) + Outputs(step, out, Iterate(step, step(s), n - 1), k))
          == ([out(s)] + Outputs(step, out, step(s), n - 1)) + Outputs(step, out, Iterate(step, step(s), n - 1), k);
    }
  }

  /** A fixed point of `step` stays put forever and every call reports the
      same value. */
  lemma {:induction false} FixedPointStream<S, O>(step: S -> S, out: S -> O, z: S, n: nat)
    requires step(z) == z
    ensures Iterate(step, z, n) == z
    ensures Outputs(step, out, z, n) == seq(n, i => out(z))
  {
    if n > 0 {
      FixedPointStream(step, out, z, n - 1);
    }
  }

  /** When `back` undoes one `step` on every state and `z` is a fixed point,
      a stream that does not start at `z` never reaches it: the only state
      stepping to `z` is `z` itself. */
  lemma {:induction false} AvoidsFixedPoint<S>(step: S -> S, back: S -> S, z: S, s: S, n: nat)
    requires forall x :: back(step(x)) == x
    requires step(z) == z
    requires s != z
    ensures Iterate(step, s, n) != z
  {
    if n > 0 {
      assert back(step(s)) == s;
      assert back(step(z)) == z;
      AvoidsFixedPoint(step, back, z, step(s), n - 1);
    }
  }
}
