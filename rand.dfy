/**
 * The samplers of the TPC-C data generator: bounded uniform draws, the NURand
 * function of section 2.1.6 of TPC-C, a draw that skips one value, sets of
 * distinct ids, random strings and the customer last names of section
 * 4.3.2.3 of TPC-C.
 */
module Rand {
  import opened Outcomes
  import NumpyRandom
  import Nurand

  /** The ten syllables a last name is built from, indexed by decimal digit. */
  const SYLLABLES: seq<string> :=
    ["BAR", "OUGHT", "ABLE", "PRI", "PRES", "ESE", "ANTI", "CALLY", "ATION", "EING"]
  const LOWERCASE_ALPHABET: string := "abcdefghijklmnopqrstuvwxyz"
  const DIGITS: string := "0123456789"

  /** Every character of `s` is one of `alphabet`. */
  predicate Over(s: string, alphabet: string) {
    forall i :: 0 <= i < |s| ==> s[i] in alphabet
  }

  // ---------------------------------------------------------------------
  // Uniform draws
  // ---------------------------------------------------------------------

  /** A uniform draw from [minimum, maximum]; when the range has one value, no draw is made. */
  method Number(minimum: int, maximum: int) returns (value: int)
    requires minimum <= maximum
    ensures minimum <= value <= maximum
  {
    if minimum == maximum {
      return minimum;
    }
    value := NumpyRandom.RandInt(minimum, maximum + 1);
  }

  /** Maps a draw from [minimum, maximum - 1] past the excluded value. */
  function SkipExcluded(num: int, excluding: int): (value: int)
    ensures value != excluding
    ensures value < excluding <==> num < excluding
  {
    if num >= excluding then num + 1 else num
  }

  /** The draw that SkipExcluded maps to `value`. */
  function RestoreExcluded(value: int, excluding: int): int
    requires value != excluding
  {
    if value > excluding then value - 1 else value
  }

  /**
   * SkipExcluded is a bijection from [minimum, maximum - 1] onto
   * [minimum, maximum] without `excluding`, with RestoreExcluded as its inverse.
   */
  lemma SkipExcludedBijection(minimum: int, maximum: int, excluding: int)
    requires minimum < maximum
    requires minimum <= excluding <= maximum
    ensures forall num :: minimum <= num <= maximum - 1 ==>
              minimum <= SkipExcluded(num, excluding) <= maximum &&
              RestoreExcluded(SkipExcluded(num, excluding), excluding) == num
    ensures forall value :: minimum <= value <= maximum && value != excluding ==>
              minimum <= RestoreExcluded(value, excluding) <= maximum - 1 &&
              SkipExcluded(RestoreExcluded(value, excluding), excluding) == value
  {
  }

  /** A uniform draw from [minimum, maximum] that never yields `excluding`. */
  method NumberExcluding(minimum: int, maximum: int, excluding: int) returns (num: int)
    requires minimum < maximum
    requires minimum <= excluding <= maximum
    ensures minimum <= num <= maximum && num != excluding
  {
    num := Number(minimum, maximum - 1);
    num := SkipExcluded(num, excluding);
  }

  // ---------------------------------------------------------------------
  // Sets of distinct ids
  // ---------------------------------------------------------------------

  /** The integers of the closed range [lo, hi]. */
  function Interval(lo: int, hi: int): (r: set<int>)
    ensures forall x :: x in r <==> lo <= x <= hi
    ensures |r| == if lo <= hi then hi - lo + 1 else 0
    decreases hi - lo
  {
    if hi < lo then {} else Interval(lo, hi - 1) + {hi}
  }

  /** A subset is no larger than its superset, and equals it when as large. */
  lemma SubsetSize(a: set<int>, b: set<int>)
    requires a <= b
    ensures |a| <= |b|
    ensures |a| == |b| ==> a == b
  {
    assert a * b == a;
    assert a + b == b;
    assert a - b == {};
    if |a| == |b| {
      assert |b - a| == 0;
      assert b - a == {};
    }
  }

  /**
   * Once `rows` holds as many values as [minimum, maximum] has, every draw
   * from the range is already in `rows`: the source's redraw loop never ends.
   */
  lemma FullIntervalHasNoFreshValue(rows: set<int>, minimum: int, maximum: int)
    requires rows <= Interval(minimum, maximum)
    requires |rows| == maximum - minimum + 1
    ensures forall v :: minimum <= v <= maximum ==> v in rows
  {
    SubsetSize(rows, Interval(minimum, maximum));
  }

  /**
   * `numUnique` distinct values from [minimum, maximum], each found by
   * drawing until the value is not taken yet. The source loops without
   * bound; here at most `maxDraws` draws are made in all, and None means
   * they ran out. `chosen` holds the values kept so far and `discarded`
   * the draws thrown away because they were already chosen, in order;
   * together they account for every draw.
   */
  method SelectUniqueIds(numUnique: nat, minimum: int, maximum: int, maxDraws: nat)
    returns (r: Option<set<int>>, chosen: set<int>, discarded: seq<int>)
    requires numUnique > 0 ==> minimum <= maximum
    ensures chosen <= Interval(minimum, maximum) && |chosen| <= numUnique
    ensures forall i :: 0 <= i < |discarded| ==> discarded[i] in chosen
    ensures |chosen| + |discarded| <= maxDraws
    ensures numUnique == 0 ==> r == Some({})
    ensures r.None? ==> |chosen| < numUnique && |chosen| + |discarded| == maxDraws
    ensures r.Some? ==> r.value == chosen && |chosen| == numUnique
    ensures r.Some? && numUnique > 0 ==> numUnique <= maximum - minimum + 1
    ensures r.Some? && numUnique == maximum - minimum + 1 ==> r.value == Interval(minimum, maximum)
  {
    chosen, discarded := {}, [];
    for i := 0 to numUnique
      invariant |chosen| == i
      invariant chosen <= Interval(minimum, maximum)
      invariant forall j :: 0 <= j < |discarded| ==> discarded[j] in chosen
      invariant |chosen| + |discarded| <= maxDraws
    {
      var index: Option<int> := None;
      while index == None || index.value in chosen
        invariant |chosen| + |discarded| + (if index.Some? then 1 else 0) <= maxDraws
        invariant forall j :: 0 <= j < |discarded| ==> discarded[j] in chosen
        invariant index.Some? ==> minimum <= index.value <= maximum
        decreases maxDraws - |chosen| - |discarded| - (if index.Some? then 1 else 0)
      {
        if index.Some? {
          discarded := discarded + [index.value];
        }
        if |chosen| + |discarded| == maxDraws {
          return None, chosen, discarded;
        }
        var v := Number(minimum, maximum);
        index := Some(v);
      }
      chosen := chosen + {index.value};
    }
    SubsetSize(chosen, Interval(minimum, maximum));
    r := Some(chosen);
  }

  // ---------------------------------------------------------------------
  // Strings
  // ---------------------------------------------------------------------

  /** A lower-case string whose length is drawn from [minimumLength, maximumLength]. */
  method AString(minimumLength: int, maximumLength: int) returns (s: string)
    requires 0 <= minimumLength <= maximumLength
    ensures minimumLength <= |s| <= maximumLength
    ensures Over(s, LOWERCASE_ALPHABET)
  {
    var size := Number(minimumLength, maximumLength);
    s := NumpyRandom.Choice(LOWERCASE_ALPHABET, size);
  }

  /** One AString per pair of bounds, in order. */
  method AStrings(minimumLength: seq<int>, maximumLength: seq<int>) returns (randomStrings: seq<string>)
    requires |minimumLength| == |maximumLength|
    requires forall i :: 0 <= i < |minimumLength| ==> 0 <= minimumLength[i] <= maximumLength[i]
    ensures |randomStrings| == |minimumLength|
    ensures forall i :: 0 <= i < |randomStrings| ==>
              minimumLength[i] <= |randomStrings[i]| <= maximumLength[i] &&
              Over(randomStrings[i], LOWERCASE_ALPHABET)
  {
    randomStrings := [];
    for i := 0 to |minimumLength|
      invariant |randomStrings| == i
      invariant forall j :: 0 <= j < i ==>
                  minimumLength[j] <= |randomStrings[j]| <= maximumLength[j] &&
                  Over(randomStrings[j], LOWERCASE_ALPHABET)
    {
      var s := AString(minimumLength[i], maximumLength[i]);
      randomStrings := randomStrings + [s];
    }
  }

  /** A string of decimal digits whose length is drawn from [minimumLength, maximumLength]. */
  method NString(minimumLength: int, maximumLength: int) returns (s: string)
    requires 0 <= minimumLength <= maximumLength
    ensures minimumLength <= |s| <= maximumLength
    ensures Over(s, DIGITS)
  {
    var size := Number(minimumLength, maximumLength);
    s := NumpyRandom.Choice(DIGITS, size);
  }

  // ---------------------------------------------------------------------
  // Last names
  // ---------------------------------------------------------------------

  lemma SyllableLengths()
    ensures forall d :: 0 <= d < 10 ==> 3 <= |SYLLABLES[d]| <= 5
  {
  }

  /**
   * The last name of section 4.3.2.3 of TPC-C: the syllables of the
   * hundreds, tens and units digits of `number`, concatenated. It fits
   * the 16 characters of C_LAST.
   */
  function LastName(number: int): (name: string)
    requires 0 <= number <= 999
    ensures 9 <= |name| <= 15
  {
    SyllableLengths();
    SYLLABLES[number / 100] + SYLLABLES[(number / 10) % 10] + SYLLABLES[number % 10]
  }

  lemma LastNameExamples()
    ensures LastName(0) == "BARBARBAR"
    ensures LastName(157) == "OUGHTESECALLY"
    ensures LastName(999) == "EINGEINGEING"
  {
  }

  /** The index of the syllable that starts with the three letters `key`, or 10 for none. */
  function SyllableWithKey(key: string): nat {
    if key == "BAR" then 0 else if key == "OUG" then 1 else if key == "ABL" then 2
    else if key == "PRI" then 3 else if key == "PRE" then 4 else if key == "ESE" then 5
    else if key == "ANT" then 6 else if key == "CAL" then 7 else if key == "ATI" then 8
    else if key == "EIN" then 9 else 10
  }

  /** No two syllables share their first three letters. */
  lemma SyllableKeys(d: nat)
    requires d < 10
    ensures |SYLLABLES[d]| >= 3 && SyllableWithKey(SYLLABLES[d][..3]) == d
  {
    if d == 0 {
      assert SYLLABLES[0][..3] == "BAR";
    } else if d == 1 {
      assert SYLLABLES[1][..3] == "OUG";
    } else if d == 2 {
      assert SYLLABLES[2][..3] == "ABL";
    } else if d == 3 {
      assert SYLLABLES[3][..3] == "PRI";
    } else if d == 4 {
      assert SYLLABLES[4][..3] == "PRE";
    } else if d == 5 {
      assert SYLLABLES[5][..3] == "ESE";
    } else if d == 6 {
      assert SYLLABLES[6][..3] == "ANT";
    } else if d == 7 {
      assert SYLLABLES[7][..3] == "CAL";
    } else if d == 8 {
      assert SYLLABLES[8][..3] == "ATI";
    } else {
      assert SYLLABLES[9][..3] == "EIN";
    }
  }

  /** The first syllable, from index `d` on in table order, that `s` starts with, and what follows it. */
  function ReadSyllable(s: string, d: nat): Option<(nat, string)>
    decreases 10 - d
  {
    if d >= 10 then None
    else if SYLLABLES[d] <= s then Some((d, s[|SYLLABLES[d]|..]))
    else ReadSyllable(s, d + 1)
  }

  /** The number a last name was built from, if it is one. */
  function ParseLastName(name: string): Option<int> {
    match ReadSyllable(name, 0)
    case None => None
    case Some((h, rest1)) =>
      match ReadSyllable(rest1, 0)
      case None => None
      case Some((t, rest2)) =>
        match ReadSyllable(rest2, 0)
        case None => None
        case Some((u, rest3)) => if rest3 == [] then Some(100 * h + 10 * t + u) else None
  }

  /** No syllable is a prefix of another syllable followed by anything. */
  lemma SyllableNotPrefix(e: nat, d: nat, rest: string)
    requires e < 10 && d < 10 && e != d
    ensures !(SYLLABLES[e] <= SYLLABLES[d] + rest)
  {
    SyllableKeys(e);
    SyllableKeys(d);
  }

  lemma {:induction false} ReadSyllableFrom(d: nat, rest: string, from: nat)
    requires from <= d < 10
    ensures ReadSyllable(SYLLABLES[d] + rest, from) == Some((d, rest))
    decreases d - from
  {
    if from < d {
      SyllableNotPrefix(from, d, rest);
      ReadSyllableFrom(d, rest, from + 1);
    } else {
      assert (SYLLABLES[d] + rest)[|SYLLABLES[d]|..] == rest;
    }
  }

  /** A syllable followed by anything reads back as that syllable. */
  lemma ReadSyllableOf(d: nat, rest: string)
    requires d < 10
    ensures ReadSyllable(SYLLABLES[d] + rest, 0) == Some((d, rest))
  {
    ReadSyllableFrom(d, rest, 0);
  }

  /** A number in [0, 999] from its three decimal digits. */
  lemma Digits(number: int)
    requires 0 <= number <= 999
    ensures 0 <= number / 100 < 10 && 0 <= (number / 10) % 10 < 10 && 0 <= number % 10 < 10
    ensures number == 100 * (number / 100) + 10 * ((number / 10) % 10) + number % 10
  {
    var q := number / 10;
    assert number == 10 * q + number % 10;
    assert q == 10 * (q / 10) + q % 10;
    assert q / 10 == number / 100;
  }

  /** Three syllables in a row parse back to the three digits they stand for. */
  lemma ParseSyllables(h: nat, t: nat, u: nat)
    requires h < 10 && t < 10 && u < 10
    ensures ParseLastName(SYLLABLES[h] + (SYLLABLES[t] + (SYLLABLES[u] + []))) == Some(100 * h + 10 * t + u)
  {
    ReadSyllableOf(h, SYLLABLES[t] + (SYLLABLES[u] + []));
    ReadSyllableOf(t, SYLLABLES[u] + []);
    ReadSyllableOf(u, []);
  }

  lemma ConcatRight(a: string, b: string, c: string)
    ensures a + b + c == a + (b + (c + []))
  {
    assert c + [] == c;
  }

  /** A last name is its three syllables in a row. */
  lemma LastNameSyllables(number: int, h: nat, t: nat, u: nat)
    requires 0 <= number <= 999
    requires h == number / 100 && t == (number / 10) % 10 && u == number % 10
    ensures h < 10 && t < 10 && u < 10
    ensures LastName(number) == SYLLABLES[h] + (SYLLABLES[t] + (SYLLABLES[u] + []))
  {
    ConcatRight(SYLLABLES[h], SYLLABLES[t], SYLLABLES[u]);
  }

  /** Parsing a last name gives back the number it was built from. */
  lemma LastNameRoundTrip(number: int)
    requires 0 <= number <= 999
    ensures ParseLastName(LastName(number)) == Some(number)
  {
    Digits(number);
    var h, t, u := number / 100, (number / 10) % 10, number % 10;
    LastNameSyllables(number, h, t, u);
    var name := SYLLABLES[h] + (SYLLABLES[t] + (SYLLABLES[u] + []));
    ParseSyllables(h, t, u);
    assert ParseLastName(name) == Some(100 * h + 10 * t + u);
    assert 100 * h + 10 * t + u == number;
    assert LastName(number) == name;
  }

  /** Distinct numbers give distinct last names. */
  lemma LastNameInjective(n1: int, n2: int)
    requires 0 <= n1 <= 999 && 0 <= n2 <= 999
    requires LastName(n1) == LastName(n2)
    ensures n1 == n2
  {
    LastNameRoundTrip(n1);
    LastNameRoundTrip(n2);
  }

  // ---------------------------------------------------------------------
  // NURand
  // ---------------------------------------------------------------------

  /**
   * Python's `|` on integers: the bitwise or of two two's-complement values
   * of unbounded width (`/` and `%` by 2 here round down, as Python's `>>` does).
   */
  function BitOr(a: int, b: int): (r: int)
    ensures 0 <= a && 0 <= b ==> a <= r && b <= r && r <= a + b
    ensures a < 0 || b < 0 ==> r < 0
    decreases Nurand.Abs(a) + Nurand.Abs(b)
  {
    if a == 0 then b
    else if b == 0 then a
    else if a == -1 || b == -1 then -1
    else 2 * BitOr(a / 2, b / 2) + (if a % 2 == 1 || b % 2 == 1 then 1 else 0)
  }

  /**
   * The NURand formula of section 2.1.6 of TPC-C for the draws `u` from
   * [0, A] and `v` from [x, y] and the constant `c`; `%` by a positive
   * number rounds down in Python as in Dafny.
   */
  function NURandFormula(u: int, v: int, c: int, x: int, y: int): (r: int)
    requires x <= y
    ensures x <= r <= y
  {
    ((BitOr(u, v) + c) % (y - x + 1)) + x
  }

  /** The three values of A the generator supports. */
  predicate IsSupported(a: int)
    ensures IsSupported(a) ==> 0 < a
  {
    a == 255 || a == 1023 || a == 8191
  }

  /** The constant C that goes with A; for load or run constants it lies in [0, A]. */
  function ConstantFor(nu: Nurand.NURandC, a: int): (c: int)
    requires IsSupported(a)
    ensures Nurand.InRange(nu) ==> 0 <= c <= a
  {
    if a == 255 then nu.cLast else if a == 1023 then nu.cId else nu.orderLineItemId
  }

  datatype NURandError = UnsupportedParameter(a: int)

  /** The smallest of 999 and maxCID - 1: the largest index a random last name uses. */
  function MaxNameIndex(maxCID: int): (m: int)
    ensures m <= 999 && m <= maxCID - 1
    ensures m == 999 || m == maxCID - 1
  {
    if maxCID - 1 < 999 then maxCID - 1 else 999
  }

  /**
   * The generator's one piece of state: the NURand constants in use
   * (`nurandVar`), installed explicitly or, on the first NURand draw,
   * lazily with load constants.
   */
  class Generator {
    var active: Option<Nurand.NURandC>

    constructor ()
      ensures active == None
    {
      active := None;
    }

    /** Installs `nu`, replacing whatever was there. */
    method SetNURand(nu: Nurand.NURandC)
      modifies this
      ensures active == Some(nu)
    {
      active := Some(nu);
    }

    /**
     * NURand(A, x, y). Constants are installed first if there are none,
     * even when A turns out to be unsupported; installed constants are kept.
     */
    method NURand(a: int, x: int, y: int) returns (r: Result<int, NURandError>)
      requires x <= y
      modifies this
      ensures old(active).Some? ==> active == old(active)
      ensures old(active).None? ==> active.Some? && Nurand.InRange(active.value)
      ensures r.Ok? <==> IsSupported(a)
      ensures r.Err? ==> r.error == UnsupportedParameter(a)
      ensures r.Ok? ==> active.Some? && x <= r.value <= y
      ensures r.Ok? ==>
                active.Some? &&
                (exists u, v :: 0 <= u <= a && x <= v <= y &&
                   r.value == NURandFormula(u, v, ConstantFor(active.value, a), x, y))
    {
      if active == None {
        var nu := Nurand.MakeForLoad();
        SetNURand(nu);
      }
      var c: int;
      if a == 255 {
        c := active.value.cLast;
      } else if a == 1023 {
        c := active.value.cId;
      } else if a == 8191 {
        c := active.value.orderLineItemId;
      } else {
        return Err(UnsupportedParameter(a));
      }
      var u := Number(0, a);
      var v := Number(x, y);
      assert c == ConstantFor(active.value, a);
      r := Ok(NURandFormula(u, v, c, x, y));
    }

    /** The last name of a NURand(255, 0, min(999, maxCID - 1)) draw. */
    method MakeRandomLastName(maxCID: int) returns (name: string)
      requires 1 <= maxCID
      modifies this
      ensures old(active).Some? ==> active == old(active)
      ensures old(active).None? ==> active.Some? && Nurand.InRange(active.value)
      ensures exists n :: 0 <= n <= MaxNameIndex(maxCID) && name == LastName(n)
      ensures active.Some? &&
                (exists u, v :: 0 <= u <= 255 && 0 <= v <= MaxNameIndex(maxCID) &&
                   name == LastName(NURandFormula(u, v, active.value.cLast, 0, MaxNameIndex(maxCID))))
    {
      var minCid := 999;
      if maxCID - 1 < minCid {
        minCid := maxCID - 1;
      }
      var r := NURand(255, 0, minCid);
      name := LastName(r.value);
    }
  }
}
