# TPC-C random-data primitives

A Dafny model of the random-data layer of py-tpcc, the Python driver for the
TPC-C benchmark (`pytpcc/util/nurand.py` and `pytpcc/util/rand.py`). It covers:

- the NURand constants of section 2.1.6 of TPC-C (`C` for A = 255, 1023 and
  8191), the draw of load-time constants, the run/load test of section 2.1.6.1
  and the redraw loop that produces run-time constants;
- the global "current constants" slot that `setNURand` fills and that `NURand`
  fills lazily with load constants on first use;
- the NURand formula `(((rand(0, A) | rand(x, y)) + C) mod (y - x + 1)) + x`,
  with Python's `|` on integers written out;
- bounded uniform draws, the draw that skips one value, the set of distinct ids,
  random lower-case and digit strings;
- the customer last names of section 4.3.2.3 of TPC-C (three syllables chosen
  by the decimal digits of a number in [0, 999]) and their NURand-driven variant.

Modules, one per source file plus two small ones:

- `Outcomes` — `Option` and `Result`.
- `NumpyRandom` — numpy's global random source as an oracle: `RandInt(low, high)`
  may return any integer of [low, high), `Choice(alphabet, size)` any string of
  `size` letters from `alphabet`. Nothing else is assumed about the draws, so
  every proved fact holds for every possible sequence of draws.
- `Nurand` — `pytpcc/util/nurand.py`. `NURandC` is a datatype: the source's
  jitclass is never changed after its constructor runs.
- `Rand` — `pytpcc/util/rand.py`. The module-level `nurandVar` becomes the field
  `active` of class `Generator`, whose methods `SetNURand`, `NURand` and
  `MakeRandomLastName` read and write it.

Python's `//` and `%` by a positive number round down, as Dafny's `/` and `%` do
for a positive divisor, so the digit arithmetic of the last names and the
`mod` of the NURand formula are written with Dafny's operators unchanged.
Python's `|` on integers is the bitwise or of unbounded two's-complement values;
`Rand.BitOr` defines it by halving, rounding down.

## Model

| member | source | states |
|---|---|---|
| `NumpyRandom.RandInt` | pytpcc/util/nurand.py:40-42 | `np.random.randint(low, high)` returns a value of [low, high): the upper bound is exclusive |
| `NumpyRandom.Choice` | pytpcc/util/rand.py:123 | `np.random.choice` over an alphabet joined into a string has exactly `size` characters, each from the alphabet |
| `Nurand.ToInt16` | pytpcc/util/nurand.py:63-67 | a value stored in an `int16` field lies in [-32768, 32767], differs from the stored value by a multiple of 65536, and is the value itself when it fits |
| `Nurand.NewNURandC` | pytpcc/util/nurand.py:69-74 | the constructor's three fields all fit `int16`, and arguments that fit are stored unchanged |
| `Nurand.MakeForLoad` | pytpcc/util/nurand.py:37-43 | load constants have `cLast` in [0, 255], `cId` in [0, 1023], `orderLineItemId` in [0, 8191] |
| `Nurand.ValidCRun` | pytpcc/util/nurand.py:46-49 | holds iff 65 <= abs(cRun - cLoad) <= 119 and the delta is neither 96 nor 112; the contract states it as windows of width 55 on each side of `cLoad`, minus the four points at distance 96 and 112 |
| `Nurand.ValidCRunSymmetric` | pytpcc/util/nurand.py:46-49 | the run/load test gives the same answer with its arguments swapped |
| `Nurand.ValidCRunNotEqual` | pytpcc/util/nurand.py:46-49 | a run constant equal to the load constant never passes |
| `Nurand.ValidCRunExamples` | pytpcc/util/nurand.py:46-49 | delta 100 passes; deltas 96, 112, 10 and 120 fail; the edges 65 and 119 pass |
| `Nurand.ValidCRunExists` | pytpcc/util/nurand.py:54-56 | for every load constant in [0, 255] some run constant in [0, 255] passes, so the redraw loop can stop |
| `Nurand.ValidCRunNoneFar` | pytpcc/util/nurand.py:54-56 | for a load constant below -119 or above 374 no candidate in [0, 255] passes, so the redraw loop could never stop |
| `Nurand.MakeForRun` | pytpcc/util/nurand.py:51-61 | every discarded candidate lies in [0, 255] and fails the test; a returned record passes the test against the load `cLast` (the assert at line 57) and has all three constants in range; within the draw budget |
| `Rand.Number` | pytpcc/util/rand.py:67-74 | for `minimum <= maximum` the result lies in [minimum, maximum] (so it is `minimum` when the two are equal) |
| `Rand.SkipExcluded` | pytpcc/util/rand.py:86-87 | the shifted draw is never the excluded value and stays on the same side of it |
| `Rand.SkipExcludedBijection` | pytpcc/util/rand.py:83-88 | the shift maps [minimum, maximum - 1] into [minimum, maximum] and onto it minus the excluded value, with `RestoreExcluded` as its two-sided inverse |
| `Rand.NumberExcluding` | pytpcc/util/rand.py:77-89 | the result lies in [minimum, maximum] and differs from `excluding` |
| `Rand.Interval` | pytpcc/util/rand.py:109-112 | the range a draw comes from, as a set: its members are exactly [lo, hi], and it has hi - lo + 1 of them |
| `Rand.SubsetSize` | pytpcc/util/rand.py:116 | a set of ids drawn from a range is no larger than the range, and equals it when as large |
| `Rand.FullIntervalHasNoFreshValue` | pytpcc/util/rand.py:109-113 | once the chosen ids fill the range, every draw is already chosen: the inner redraw loop cannot end |
| `Rand.SelectUniqueIds` | pytpcc/util/rand.py:107-117 | every kept id lies in [minimum, maximum] and every discarded draw was already kept; kept ids plus discarded draws never exceed the budget; `numUnique == 0` gives the empty set without drawing; None only when fewer than `numUnique` ids are kept and the whole budget is spent; a returned set has exactly `numUnique` members (the assert at line 116), can only be returned when `numUnique` fits the range, and is the whole range when `numUnique` equals its size |
| `Rand.AString` | pytpcc/util/rand.py:120-123 | the length lies in [minimumLength, maximumLength] and every character is a lower-case letter |
| `Rand.AStrings` | pytpcc/util/rand.py:126-134 | one string per index, in order, each with its length in its own bounds and only lower-case letters |
| `Rand.NString` | pytpcc/util/rand.py:137-140 | the length lies in [minimumLength, maximumLength] and every character is a decimal digit |
| `Rand.SyllableKeys` | pytpcc/util/rand.py:38 | every syllable has at least three letters, and no two syllables share their first three |
| `Rand.SyllableNotPrefix` | pytpcc/util/rand.py:38 | no syllable is a prefix of another syllable followed by anything |
| `Rand.LastName` | pytpcc/util/rand.py:143-148 | a last name has 9 to 15 characters, so it fits the 16 of C_LAST |
| `Rand.LastNameExamples` | pytpcc/util/rand.py:143-148 | 0 gives BARBARBAR, 157 gives OUGHTESECALLY, 999 gives EINGEINGEING |
| `Rand.ReadSyllableOf` | pytpcc/util/rand.py:147-148 | a syllable followed by anything reads back as that syllable, leaving the rest |
| `Rand.ParseSyllables` | pytpcc/util/rand.py:147-148 | three syllables in a row parse back to the three digits they stand for |
| `Rand.LastNameRoundTrip` | pytpcc/util/rand.py:143-148 | parsing the name built from `number` gives back `number` |
| `Rand.LastNameInjective` | pytpcc/util/rand.py:143-148 | distinct numbers in [0, 999] give distinct last names |
| `Rand.BitOr` | pytpcc/util/rand.py:64 | Python's `|`: for non-negative operands the result is at least each operand and at most their sum; a negative operand gives a negative result |
| `Rand.NURandFormula` | pytpcc/util/rand.py:64 | for `x <= y` the NURand formula lies in [x, y], whatever the draws and the constant |
| `Rand.IsSupported` | pytpcc/util/rand.py:55-62 | the values of A that NURand accepts; each is positive, so `number(0, A)` at line 64 gets its bounds in order |
| `Rand.ConstantFor` | pytpcc/util/rand.py:55-60 | picks `cLast`, `cId` or `orderLineItemId` for A = 255, 1023 or 8191; for constants in their ranges the chosen C lies in [0, A] |
| `Rand.MaxNameIndex` | pytpcc/util/rand.py:153-154 | `min_cid` is the smaller of 999 and maxCID - 1 |
| `Rand.Generator.constructor` | pytpcc/util/rand.py:42 | no constants are installed at start |
| `Rand.Generator.SetNURand` | pytpcc/util/rand.py:43-45 | the given constants are installed, replacing any installed before |
| `Rand.Generator.NURand` | pytpcc/util/rand.py:48-64 | with no constants installed, load constants are installed first, even for an unsupported A; installed constants are kept; the call succeeds exactly for A in {255, 1023, 8191} and otherwise fails naming A; a result lies in [x, y] and is the formula for some draws in [0, A] and [x, y] and the constant that goes with A |
| `Rand.Generator.MakeRandomLastName` | pytpcc/util/rand.py:151-155 | the name is `LastName` of the NURand formula for some draws in [0, 255] and [0, min(999, maxCID - 1)] and the installed `cLast`, so it is the last name of some number in that range; constants are installed lazily as by NURand |

## Left out

- `shuffle` (pytpcc/util/rand.py:158-160) only calls numpy's in-place shuffle; it has no logic of its own.
- `fixedPoint` (pytpcc/util/rand.py:92-104) works on floating-point bounds and divides in floating point; floating point is not modelled.
- How likely each value is: uniformity, the skew of NURand, the share of valid run constants. The draws are an oracle, so only ranges, membership and set sizes are proved.
- Which value numpy's generator returns for a given seed: `NumpyRandom` may return any value in range.
- numba compilation (`@njit`, `@jitclass`) and numpy array types; `astrings` takes and returns Dafny sequences.
- Sharing the constants slot between threads: `Generator` is single-threaded object state.
- Nurand.MakeForRun: the source redraws without bound; the model stops after `maxDraws` candidates and returns None, because every loop must be shown to end.
- Nurand.MakeForRun: that `cId` and `orderLineItemId` do not depend on the load constants is a statement about the distribution of draws and is not stated.
- Rand.SelectUniqueIds: the source redraws without bound; the model stops after `maxDraws` draws in all and returns None, together with the ids kept and the draws discarded so far. That the source never ends when `numUnique` exceeds the range is stated through `FullIntervalHasNoFreshValue` and the postconditions.
- Rand.Number: that no draw is made when `minimum == maximum` is not observable through the oracle and is not stated.
- Rand.AString: a negative `minimumLength`, for which numpy may fail on a negative size, is excluded by the precondition.
- Rand.NString: a negative `minimumLength` is excluded by the precondition, for the same reason.
- Rand.AStrings: a negative lower bound at any index is excluded by the precondition, for the same reason.
- Rand.Generator.NURand: for an unsupported A the source's own message building (`"a = " + a`) fails with a type error before the intended exception; both are errors, and the model returns `UnsupportedParameter(a)`.
