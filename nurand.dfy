/**
 * The NURand constants of section 2.1.6 of the TPC-C specification: the
 * record that holds them, the draw used while loading the database, the
 * run/load test of section 2.1.6.1 and the draw used while running.
 */
module Nurand {
  import opened Outcomes
  import NumpyRandom

  /**
   * The constant C of the NURand formula for each of its three uses:
   * A = 255 (customer last name), A = 1023 (customer id) and
   * A = 8191 (order-line item id). Each field is a numba `int16`.
   */
  datatype NURandC = NURandC(cLast: int, cId: int, orderLineItemId: int)

  const INT16_MIN: int := -0x8000
  const INT16_MAX: int := 0x7FFF

  predicate IsInt16(v: int) {
    INT16_MIN <= v <= INT16_MAX
  }

  /** What an `int16` field holds after being assigned `v`: its low 16 bits, in two's complement. */
  function ToInt16(v: int): (r: int)
    ensures IsInt16(r)
    ensures (r - v) % 0x1_0000 == 0
    ensures IsInt16(v) ==> r == v
  {
    (v - INT16_MIN) % 0x1_0000 + INT16_MIN
  }

  /** The constructor: every argument is stored in its `int16` field, unchanged when it fits. */
  function NewNURandC(cLast: int, cId: int, orderLineItemId: int): (c: NURandC)
    ensures IsInt16(c.cLast) && IsInt16(c.cId) && IsInt16(c.orderLineItemId)
    ensures IsInt16(cLast) && IsInt16(cId) && IsInt16(orderLineItemId) ==>
              c.cLast == cLast && c.cId == cId && c.orderLineItemId == orderLineItemId
  {
    NURandC(ToInt16(cLast), ToInt16(cId), ToInt16(orderLineItemId))
  }

  /** Each constant C lies in [0, A] for its A. */
  predicate InRange(c: NURandC) {
    0 <= c.cLast <= 255 && 0 <= c.cId <= 1023 && 0 <= c.orderLineItemId <= 8191
  }

  /** Constants for loading the database: three independent uniform draws. */
  method MakeForLoad() returns (c: NURandC)
    ensures InRange(c)
  {
    var cLast := NumpyRandom.RandInt(0, 256);
    var cId := NumpyRandom.RandInt(0, 1024);
    var orderLineItemId := NumpyRandom.RandInt(0, 8192);
    c := NewNURandC(cLast, cId, orderLineItemId);
  }

  function Abs(x: int): nat {
    if x < 0 then -x else x
  }

  /**
   * Section 2.1.6.1 of TPC-C: the C_LAST constant used while running must
   * differ from the one used while loading by 65 to 119, but not by 96 or 112.
   */
  predicate ValidCRun(cRun: int, cLoad: int)
    ensures ValidCRun(cRun, cLoad) <==>
              ((cLoad + 65 <= cRun <= cLoad + 119 || cLoad - 119 <= cRun <= cLoad - 65) &&
               cRun != cLoad + 96 && cRun != cLoad - 96 &&
               cRun != cLoad + 112 && cRun != cLoad - 112)
  {
    var cDelta := Abs(cRun - cLoad);
    65 <= cDelta && cDelta <= 119 && cDelta != 96 && cDelta != 112
  }

  /** The test depends only on the distance between the two constants. */
  lemma ValidCRunSymmetric(cRun: int, cLoad: int)
    ensures ValidCRun(cRun, cLoad) <==> ValidCRun(cLoad, cRun)
  {
  }

  /** A run constant is never the load constant itself. */
  lemma ValidCRunNotEqual(c: int)
    ensures !ValidCRun(c, c)
  {
  }

  lemma ValidCRunExamples()
    ensures ValidCRun(100, 0)
    ensures !ValidCRun(96, 0) && !ValidCRun(112, 0)
    ensures !ValidCRun(10, 0) && !ValidCRun(120, 0)
    ensures ValidCRun(0, 65) && ValidCRun(255, 136)
  {
  }

  /** For every load constant some run constant in [0, 255] passes, so the redraw loop can stop. */
  lemma ValidCRunExists(cLoad: int)
    requires 0 <= cLoad <= 255
    ensures exists cRun :: 0 <= cRun <= 255 && ValidCRun(cRun, cLoad)
  {
    var cRun := if cLoad <= 127 then cLoad + 65 else cLoad - 65;
    assert 0 <= cRun <= 255 && ValidCRun(cRun, cLoad);
  }

  /** A load constant farther than 119 from all of [0, 255] has no valid run constant at all. */
  lemma ValidCRunNoneFar(cLoad: int, cRun: int)
    requires cLoad < -119 || 374 < cLoad
    requires 0 <= cRun <= 255
    ensures !ValidCRun(cRun, cLoad)
  {
  }

  /**
   * Constants for running the benchmark: C_LAST is redrawn from [0, 255]
   * until it passes the test against the load constants' C_LAST; C_ID and
   * OL_I_ID are drawn afresh. The source loops without bound; here at most
   * `maxDraws` candidates are drawn, and None means all of them failed.
   * `rejected` lists the candidates the loop threw away, in order.
   */
  method MakeForRun(loadC: NURandC, maxDraws: nat) returns (r: Option<NURandC>, rejected: seq<int>)
    ensures forall i :: 0 <= i < |rejected| ==>
              0 <= rejected[i] <= 255 && !ValidCRun(rejected[i], loadC.cLast)
    ensures r.Some? ==> |rejected| < maxDraws
    ensures r.Some? ==> InRange(r.value) && ValidCRun(r.value.cLast, loadC.cLast)
    ensures r.None? ==> |rejected| == maxDraws
  {
    rejected := [];
    if maxDraws == 0 {
      return None, rejected;
    }
    var cRun := NumpyRandom.RandInt(0, 256);
    while !ValidCRun(cRun, loadC.cLast)
      invariant 0 <= cRun <= 255
      invariant |rejected| < maxDraws
      invariant forall i :: 0 <= i < |rejected| ==>
                  0 <= rejected[i] <= 255 && !ValidCRun(rejected[i], loadC.cLast)
      decreases maxDraws - |rejected|
    {
      rejected := rejected + [cRun];
      if |rejected| == maxDraws {
        return None, rejected;
      }
      cRun := NumpyRandom.RandInt(0, 256);
    }
    var cId := NumpyRandom.RandInt(0, 1024);
    var orderLineItemId := NumpyRandom.RandInt(0, 8192);
    r := Some(NewNURandC(cRun, cId, orderLineItemId));
  }
}
