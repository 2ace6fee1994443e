/**
 * The number of mesh points along one side of the wall: the length of
 * numpy's arange(start, stop, step), which is ceil((stop - start) / step)
 * clipped at zero.
 */
module Arange {

  /** The m-th value that arange(start, stop, step) produces. */
  function Point(start: real, step: real, m: nat): real
  {
    start + (m as real) * step
  }

  /** The least integer that is not below x. */
  function Ceil(x: real): (c: int)
    ensures (c - 1) as real < x <= c as real
  {
    -((-x).Floor)
  }

  /** Length of arange(start, stop, step); a step of zero is an error in numpy. */
  function Length(start: real, stop: real, step: real): (n: nat)
    requires step != 0.0
    ensures step > 0.0 ==> (n == 0 <==> stop <= start)
    ensures step < 0.0 ==> (n == 0 <==> stop >= start)
  {
    var c := Ceil((stop - start) / step);
    if c < 0 then 0 else c
  }

  /**
   * The length is a half-open count: the m-th point is produced exactly when
   * it lies strictly before stop (strictly beyond it for a negative step).
   */
  lemma LengthCountsPoints(start: real, stop: real, step: real, m: nat)
    requires step != 0.0
    ensures step > 0.0 ==> (m < Length(start, stop, step) <==> Point(start, step, m) < stop)
    ensures step < 0.0 ==> (m < Length(start, stop, step) <==> Point(start, step, m) > stop)
  {
    var x := (stop - start) / step;
    var c := Ceil(x);
    assert x * step == stop - start;
    // m is below the clipped ceiling exactly when it is below x
    assert m < Length(start, stop, step) <==> (m as real) < x;
    if step > 0.0 {
      assert (m as real) < x <==> (m as real) * step < x * step;
    } else {
      assert (m as real) < x <==> (m as real) * step > x * step;
    }
  }
}
