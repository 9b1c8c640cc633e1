/** Small helpers shared by the other modules. */
module Basics {
  function Max(a: int, b: int): int { if a < b then b else a }
  function Min(a: int, b: int): int { if a < b then a else b }

  function Power2(n: nat): (power: nat)
    ensures power >= 1
  {
    if n == 0 then 1 else 2 * Power2(n - 1)
  }

  /** A query's `take`, or a slice from the front. */
  function Take<T>(items: seq<T>, count: nat): seq<T> {
    if count >= |items| then items else items[..count]
  }

  lemma MulMonotone(unit: nat, x: int, y: int)
    requires x <= y
    ensures unit * x <= unit * y
  {}

  lemma QuotientBound(unit: nat, steps: int, span: nat)
    requires unit > 0 && unit * steps <= span
    ensures steps <= span / unit
  {
    var q := span / unit;
    assert span < unit * q + unit == unit * (q + 1);
    if steps >= q + 1 {
      MulMonotone(unit, q + 1, steps);
      assert false;
    }
  }

  /** A set of integers in a range has no more elements than the range. */
  lemma {:induction false} RangeBoundsCard(indices: set<int>, lo: int, hi: int)
    requires forall i :: i in indices ==> lo <= i <= hi
    ensures |indices| <= if lo <= hi then hi - lo + 1 else 0
    decreases hi - lo
  {
    if lo <= hi {
      RangeBoundsCard(indices - {hi}, lo, hi - 1);
      if hi in indices {
        assert |indices| == |indices - {hi}| + 1;
      } else {
        assert indices - {hi} == indices;
      }
    } else {
      assert indices == {};
    }
  }

  /** An id that is not in use. */
  lemma NewId(ids: set<nat>) returns (id: nat)
    ensures id !in ids && forall used :: used in ids ==> used < id
  {
    if ids == {} {
      id := 0;
    } else {
      var used :| used in ids;
      id := NewId(ids - {used});
      id := if id <= used then used + 1 else id;
      assert forall other :: other in ids ==> other == used || other in ids - {used};
    }
  }
}
