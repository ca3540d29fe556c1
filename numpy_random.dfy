/**
 * The random source every sampler draws from: numpy's global random state.
 *
 * Each draw is an oracle. A call may return any value that numpy documents
 * for it, and the model assumes nothing else: not which value, not how often
 * a value comes up, not that two calls differ.
 */
module NumpyRandom {

  /** `np.random.randint(low, high)`: an integer of the half-open range [low, high). */
  method RandInt(low: int, high: int) returns (v: int)
    requires low < high
    ensures low <= v < high
  {
    assert low <= low < high;
    v :| low <= v < high;
  }

  /**
   * `''.join(np.random.choice(alphabet, size=size))`: `size` independent picks
   * from `alphabet`, concatenated.
   */
  method Choice(alphabet: string, size: nat) returns (s: string)
    requires |alphabet| > 0
    ensures |s| == size
    ensures forall i :: 0 <= i < size ==> s[i] in alphabet
  {
    s := [];
    while |s| < size
      invariant |s| <= size
      invariant forall i :: 0 <= i < |s| ==> s[i] in alphabet
    {
      var k := RandInt(0, |alphabet|);
      s := s + [alphabet[k]];
    }
  }
}
