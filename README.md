# Romu random number generators in Dafny

This project models the header-only Romu library (`src/RomuRandom.hpp`) of
small, fast, non-cryptographic pseudo-random number generators. It covers:

- the two **seed expanders**:
  - `SplitMix` has a 64-bit state. Each call adds the golden-ratio increment and then mixes the state.
  - `SplitMix32` has a 32-bit state. Each call takes an offset linear-congruential step and then mixes the state.
- the four **64-bit Romu generators**: `Quad`, `Trio`, `Duo` and `DuoJr`.
- the two **32-bit Romu generators**: `Quad32` and `Trio32`.
- `Mono32`, a **one-word generator** with 16-bit output.

Every generator except `Mono32` owns a fixed array of words; `Mono32` owns a single 32-bit word. A generator's `next()` (`random()` for `Duo`) does three things:

1. reads every word;
2. writes new words computed only from the values it read, using multiplications, rotations, additions and subtractions that wrap;
3. returns one of the words it read (for `Mono32`, the upper half of its word).

The model keeps that shape:

- each generator except `Mono32` is a Dafny class over an `array` of bit-vector words, and `Mono32` is a class with one `bv32` field;
- each method writes the words in the source's order;
- each method's postcondition ties the new state to a pure step function of the old one (`QuadStep`, `TrioStep`, ..., `MonoStep`).

The Dafny files are organised as follows:

- `streams.dfy` (module `Streams`): `Iterate` and `Outputs`, plus the stream lemmas. These lemmas hold for any deterministic step:
  - replay from a saved state;
  - fixed points;
  - avoidance of a fixed point by an invertible step.
- `bits.dfy` (module `RomuBits`): wrapping word addition and subtraction, and the `ROTL` macro with its inverse rotation.
- `splitmix.dfy` (module `SeedExpanders`): both seed expanders and their mixing functions, together with the inverses of those functions.
- `romu64.dfy` (module `Romu64`): `Quad`, `Trio`, `Duo` and `DuoJr`.
- `romu32.dfy` (module `Romu32`): `Quad32`, `Trio32` and `Mono32`.

The properties proved are:

- **Exactness.** Every modelled step, seeding and copy of the state does exactly what the source code does. `Trio32::next` is not modelled (see "Left out").
- **Invertibility.**
  - Every modelled generator step is a bijection on states. Each step has an explicit inverse, and lemmas prove both compositions are the identity.
  - The same holds for both expander mixes (`Mix64Inverse` with `Mix64Surjective`, `Mix32Inverse` with `Mix32Surjective`).
  - The 32-bit expander step has an explicit inverse too.
- **The all-zero state is a fixed point.** Once there, every modelled generator outputs only zeros.
- **No other start reaches zero.** A generator that starts anywhere else never gets there, because the step is invertible.
  - Seeded `Quad32` states are never all zero.
  - Seeded `Mono32` states are never zero.
- **SplitMix has period exactly 2^64.** Its state after `n` calls is a closed form in `n`. It returns to the seed after 2^64 calls, and never after fewer, because the increment is odd.
- **Replay.** The outputs after a saved state are the outputs of a generator rebuilt from that state.

Machine integers are modelled as follows:

- `uint64_t` and `uint32_t` words are `bv64` and `bv32`, where `*`, `+` and `-` wrap exactly as C++ unsigned arithmetic does.
- The `uint16_t` output of `Mono32` is a `bv16`.
- The state of `SplitMix` is a `uint64` integer newtype, and its addition reduces modulo 2^64 explicitly.
- Bit patterns enter through parameters. Generators take seeds or initial words as arguments, and no clock is read.

## Model

| member | source | states |
|---|---|---|
| RomuBits.Rotate64By52 | src/RomuRandom.hpp:56 | `ROTL(d, 52)` on a 64-bit word is a left rotation by 52 bits, and the right rotation by 52 undoes it in both orders (used by `Quad::next`) |
| RomuBits.Rotate64By19 | src/RomuRandom.hpp:56 | `ROTL(d, 19)` is a rotation by 19 with a two-sided inverse (`Quad::next`) |
| RomuBits.Rotate64By12 | src/RomuRandom.hpp:56 | `ROTL(d, 12)` is a rotation by 12 with a two-sided inverse (`Trio::next`) |
| RomuBits.Rotate64By44 | src/RomuRandom.hpp:56 | `ROTL(d, 44)` is a rotation by 44 with a two-sided inverse (`Trio::next`) |
| RomuBits.Rotate64By36 | src/RomuRandom.hpp:56 | `ROTL(d, 36)` is a rotation by 36 with a two-sided inverse (`Duo::random`) |
| RomuBits.Rotate64By15 | src/RomuRandom.hpp:56 | `ROTL(d, 15)` is a rotation by 15 with a two-sided inverse (`Duo::random`) |
| RomuBits.Rotate64By27 | src/RomuRandom.hpp:56 | `ROTL(d, 27)` is a rotation by 27 with a two-sided inverse (`DuoJr::next`) |
| RomuBits.Rotate32By26 | src/RomuRandom.hpp:56 | on a 32-bit word `ROTL(d, 26)` is a rotation by 26 with a two-sided inverse (`Quad32::next`) |
| RomuBits.Rotate32By9 | src/RomuRandom.hpp:56 | on a 32-bit word `ROTL(d, 9)` is a rotation by 9 with a two-sided inverse (`Quad32::next`) |
| RomuBits.Rotate32By12 | src/RomuRandom.hpp:56 | on a 32-bit word `ROTL(d, 12)` is a rotation by 12 with a two-sided inverse (`Mono32::next`) |
| SeedExpanders.Mix64Inverse | src/RomuRandom.hpp:100-102 | the 64-bit output mix (two xor-shift/multiply rounds and a final xor-shift) is undone by `Unmix64`, so no information about the state is lost |
| SeedExpanders.Mix64Surjective | src/RomuRandom.hpp:100-102 | every 64-bit word is the mix of some state, namely its `Unmix64`, so the mix is a bijection |
| SeedExpanders.Mix64Injective | src/RomuRandom.hpp:100-102 | two states give the same `SplitMix` output if and only if they are equal |
| SeedExpanders.SplitMixStateAfter | src/RomuRandom.hpp:97-99 | after `n` calls of `next()` the state is `seed + n * 0x9e3779b97f4a7c15` modulo 2^64 |
| SeedExpanders.SplitMixPeriod | src/RomuRandom.hpp:94-99 | any seed works: after 2^64 calls the state is back at the seed |
| SeedExpanders.SplitMixNoShorterPeriod | src/RomuRandom.hpp:94-99 | for any seed, no number of calls strictly between 0 and 2^64 brings the state back to the seed, so 2^64 is the least period |
| SeedExpanders.SplitMixOutputAt | src/RomuRandom.hpp:97-103 | the `i`-th value of the stream is the mix of the closed-form state after `i + 1` additions |
| SeedExpanders.SplitMix.constructor | src/RomuRandom.hpp:110-113 | `SplitMix(state)` stores the seed unchanged |
| SeedExpanders.SplitMix.Next | src/RomuRandom.hpp:97-103 | `next()` adds the increment (wrapping) to the state first and returns the mix of the new state |
| SeedExpanders.Step32Inverse | src/RomuRandom.hpp:73 | the 32-bit state update `1664525 * (s + 314159265)` is a bijection, and `Unstep32` undoes it in both orders |
| SeedExpanders.Step32FlipsParity | src/RomuRandom.hpp:73 | each 32-bit state update flips the low bit of the state, so it never maps a state to itself |
| SeedExpanders.Mix32Inverse | src/RomuRandom.hpp:74-77 | the 32-bit output mix is undone by `Unmix32` |
| SeedExpanders.Mix32Surjective | src/RomuRandom.hpp:74-77 | every 32-bit word is the mix of some state, namely its `Unmix32`, so the mix is a bijection |
| SeedExpanders.Mix32Injective | src/RomuRandom.hpp:74-77 | two 32-bit states give the same mix if and only if they are equal |
| SeedExpanders.SplitMix32Successive | src/RomuRandom.hpp:71-78 | two successive `SplitMix32` values never coincide |
| SeedExpanders.SplitMix32.constructor | src/RomuRandom.hpp:85-88 | `SplitMix32(state)` stores the seed unchanged |
| SeedExpanders.SplitMix32.Next | src/RomuRandom.hpp:71-78 | `next()` updates the state first and returns the mix of the new state |
| Streams.OutputsSplit | src/RomuRandom.hpp:155-158 | replay: the outputs of `n + k` calls are the first `n` outputs followed by the outputs of a generator rebuilt from the state `state()` returns after `n` calls |
| Romu64.UndoTimesC1 | src/RomuRandom.hpp:163 | multiplication by C1 = 15241094284759029579 modulo 2^64 is undone by its modular inverse |
| Romu64.SeedWordsAre | src/RomuRandom.hpp:148-153 | the words `seed(s)` writes are the first and second values of `SplitMix(s)` |
| Romu64.QuadBackOfStep | src/RomuRandom.hpp:160-169 | `QuadBack` undoes one `Quad::next` state update, so no two states share a successor |
| Romu64.QuadStepOfBack | src/RomuRandom.hpp:160-169 | every state is the successor of `QuadBack` of it, so every state has a predecessor |
| Romu64.QuadZeroStream | src/RomuRandom.hpp:160-169 | from the all-zero state `Quad` stays all-zero and returns 0 forever |
| Romu64.QuadNeverZero | src/RomuRandom.hpp:160-169 | from any state that is not all-zero, `Quad` never reaches the all-zero state |
| Romu64.Quad.constructor | src/RomuRandom.hpp:123-129 | `Quad(w, x, y, z)` stores the four words in order |
| Romu64.Quad.FromState | src/RomuRandom.hpp:131-139 | `Quad(state)` stores the given state verbatim |
| Romu64.Quad.Seed | src/RomuRandom.hpp:148-153 | `seed(s)` replaces words 0 and 1 with the first two `SplitMix(s)` values and keeps words 2 and 3 |
| Romu64.Quad.State | src/RomuRandom.hpp:155-158 | `state()` returns exactly the current words |
| Romu64.Quad.Next | src/RomuRandom.hpp:160-169 | `next()` performs exactly the `Quad` state update and returns the old word 1 |
| Romu64.TrioBackOfStep | src/RomuRandom.hpp:213-222 | `TrioBack` undoes one `Trio::next` state update |
| Romu64.TrioStepOfBack | src/RomuRandom.hpp:213-222 | every `Trio` state has a predecessor |
| Romu64.TrioZeroStream | src/RomuRandom.hpp:213-222 | the all-zero state is fixed and yields only zeros |
| Romu64.TrioNeverZero | src/RomuRandom.hpp:213-222 | a `Trio` not started at all-zero never reaches it |
| Romu64.Trio.constructor | src/RomuRandom.hpp:178-183 | `Trio(w, x, y)` stores the three words in order |
| Romu64.Trio.FromState | src/RomuRandom.hpp:185-192 | `Trio(state)` stores the given state verbatim |
| Romu64.Trio.Seed | src/RomuRandom.hpp:201-206 | `seed(s)` replaces words 0 and 1 with the first two `SplitMix(s)` values and keeps word 2 |
| Romu64.Trio.State | src/RomuRandom.hpp:208-211 | `state()` returns exactly the current words |
| Romu64.Trio.Next | src/RomuRandom.hpp:213-222 | `next()` performs exactly the `Trio` state update and returns the old word 0 |
| Romu64.DuoBackOfStep | src/RomuRandom.hpp:264-270 | `DuoBack` undoes one `Duo::random` state update |
| Romu64.DuoStepOfBack | src/RomuRandom.hpp:264-270 | every `Duo` state has a predecessor |
| Romu64.DuoZeroStream | src/RomuRandom.hpp:264-270 | the all-zero state is fixed and yields only zeros |
| Romu64.DuoNeverZero | src/RomuRandom.hpp:264-270 | a `Duo` not started at all-zero never reaches it |
| Romu64.Duo.constructor | src/RomuRandom.hpp:231-235 | `Duo(w, x)` stores the two words in order |
| Romu64.Duo.FromState | src/RomuRandom.hpp:237-243 | `Duo(state)` stores the given state verbatim |
| Romu64.Duo.Seed | src/RomuRandom.hpp:252-257 | `seed(s)` sets both words to the first two `SplitMix(s)` values |
| Romu64.Duo.State | src/RomuRandom.hpp:259-262 | `state()` returns exactly the current words |
| Romu64.Duo.Random | src/RomuRandom.hpp:264-270 | `random()` performs exactly the `Duo` state update and returns the old word 0 |
| Romu64.DuoJrBackOfStep | src/RomuRandom.hpp:312-319 | `DuoJrBack` undoes one `DuoJr::next` state update |
| Romu64.DuoJrStepOfBack | src/RomuRandom.hpp:312-319 | every `DuoJr` state has a predecessor |
| Romu64.DuoJrZeroStream | src/RomuRandom.hpp:312-319 | the all-zero state is fixed and yields only zeros |
| Romu64.DuoJrNeverZero | src/RomuRandom.hpp:312-319 | a `DuoJr` not started at all-zero never reaches it |
| Romu64.DuoJr.constructor | src/RomuRandom.hpp:279-283 | `DuoJr(w, x)` stores the two words in order |
| Romu64.DuoJr.FromState | src/RomuRandom.hpp:285-291 | `DuoJr(state)` stores the given state verbatim |
| Romu64.DuoJr.Seed | src/RomuRandom.hpp:300-305 | `seed(s)` sets both words to the first two `SplitMix(s)` values |
| Romu64.DuoJr.State | src/RomuRandom.hpp:307-310 | `state()` returns exactly the current words |
| Romu64.DuoJr.Next | src/RomuRandom.hpp:312-319 | `next()` performs exactly the `DuoJr` state update and returns the old word 0 |
| Romu32.SeedWordsAre | src/RomuRandom.hpp:354-359 | the words `seed(s)` writes are the first two `SplitMix32(s)` values, and they differ |
| Romu32.UndoTimesC2 | src/RomuRandom.hpp:369 | multiplication by C2 = 3323815723 modulo 2^32 is undone by its modular inverse |
| Romu32.Quad32BackOfStep | src/RomuRandom.hpp:366-375 | `Quad32Back` undoes one `Quad32::next` state update |
| Romu32.Quad32StepOfBack | src/RomuRandom.hpp:366-375 | every `Quad32` state has a predecessor |
| Romu32.Quad32ZeroStream | src/RomuRandom.hpp:366-375 | the all-zero state is fixed and yields only zeros |
| Romu32.Quad32NeverZero | src/RomuRandom.hpp:366-375 | a `Quad32` not started at all-zero never reaches it |
| Romu32.Quad32SeededNeverZero | src/RomuRandom.hpp:354-375 | whatever words 2 and 3 hold, a `Quad32` right after `seed(s)` never reaches the all-zero state |
| Romu32.Quad32.constructor | src/RomuRandom.hpp:329-335 | `Quad32(w, x, y, z)` stores the four words in order |
| Romu32.Quad32.FromState | src/RomuRandom.hpp:337-345 | `Quad32(state)` stores the given state verbatim |
| Romu32.Quad32.Seed | src/RomuRandom.hpp:354-359 | `seed(s)` replaces words 0 and 1 with the first two `SplitMix32(s)` values and keeps words 2 and 3 |
| Romu32.Quad32.State | src/RomuRandom.hpp:361-364 | `state()` returns exactly the current words |
| Romu32.Quad32.Next | src/RomuRandom.hpp:366-375 | `next()` performs exactly the `Quad32` state update and returns the old word 1 |
| Romu32.Trio32.constructor | src/RomuRandom.hpp:384-389 | `Trio32(w, x, y)` stores the three words in order |
| Romu32.Trio32.FromState | src/RomuRandom.hpp:391-398 | `Trio32(state)` stores the given state verbatim |
| Romu32.Trio32.Seed | src/RomuRandom.hpp:407-412 | `seed(s)` replaces words 0 and 1 with the first two `SplitMix32(s)` values and keeps word 2 |
| Romu32.Trio32.State | src/RomuRandom.hpp:414-417 | `state()` returns exactly the current words |
| Romu32.UndoTimesC3 | src/RomuRandom.hpp:459 | multiplication by C3 = 3611795771 modulo 2^32 is undone by its modular inverse |
| Romu32.MonoSeedRange | src/RomuRandom.hpp:437-440 | a seeded `Mono32` state keeps only the low 29 bits of the seed, offset by 1156979152. It lies in [1156979152, 1693850063], so it is never zero, and seed `0xFFFFFFFF` gives 1693850063 |
| Romu32.MonoOutputIsHighHalf | src/RomuRandom.hpp:458 | the 16-bit output is the upper half of the state word, and shifting it back up recovers those bits |
| Romu32.MonoInverse | src/RomuRandom.hpp:459-460 | the `Mono32` state update is a bijection on 32-bit words, undone by `MonoBack` in both orders |
| Romu32.MonoZeroStream | src/RomuRandom.hpp:456-462 | state 0 is fixed and yields only zeros |
| Romu32.MonoSeededNeverZero | src/RomuRandom.hpp:446-462 | a seeded `Mono32` never reaches state 0 |
| Romu32.Mono32.constructor | src/RomuRandom.hpp:437-440 | `Mono32(s)` stores the masked and offset seed |
| Romu32.Mono32.Seed | src/RomuRandom.hpp:446-449 | `seed(s)` sets the state exactly as the constructor does |
| Romu32.Mono32.State | src/RomuRandom.hpp:451-454 | `state()` returns the current word |
| Romu32.Mono32.Next | src/RomuRandom.hpp:456-462 | `next()` returns the upper 16 bits of the old state and performs exactly the `Mono32` state update |

## Left out

- The constructors without arguments, which seed from the wall clock (`time(nullptr)`), are left out of the model. These are `SplitMix32()`, `SplitMix()`, `Quad()`, `Trio()`, `Duo()`, `DuoJr()`, `Quad32()`, `Trio32()` and `Mono32()`. Time is outside the model, and a seed given as a parameter covers every value a clock could give. The source has two quirks here:
  - `Mono32()` constructs and discards a temporary, which leaves `m_state` uninitialised.
  - `SplitMix32()` shifts a `time_t` right by 32 bits.
- The constructors taking a raw `uint64_t state[N]` (or `uint32_t state[N]`) pointer are modelled by the same `FromState` constructor as the `std::array` overload. Both copy the words verbatim, so the model does not capture pointer aliasing or reads past the end of a short buffer.
- `Trio32::next` (src/RomuRandom.hpp:419-428) is left out. It computes `ROTL(m_state[2], 44)` on a 32-bit word. Both shifts in that macro are then out of range, which C++ leaves undefined, so the update has no defined result to model. Its 64-bit multiplier is also truncated to 32 bits.
- `RomuBits.Rotl64`, `RomuBits.Rotl32`: the macro is modelled only for rotation amounts strictly between 0 and the word width. Those are the only amounts the modelled generators use.
- Statistical quality, period lengths of the Romu generators and speed are not modelled. These are empirical claims, not properties of the code.
- `constexpr` evaluation, inlining and thread safety are not modelled. No member is shared between threads in the source.
- The 64-bit seed words of `SplitMix` are not proved to differ from each other. The model proves that the 64-bit mix is injective and gives the closed form of the state. It does not prove the claim for the words, so seeded 64-bit generators are covered only by the general "a state other than all-zero never reaches all-zero" lemmas.
