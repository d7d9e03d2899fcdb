/** A range of `f64` values with an inclusive (`Contains`) and a strict
    (`Surrounds`) membership test, and clamping into the range. */
module Intervals {
  import opened Numeric

  datatype Interval = Interval(min: Float, max: Float)

  /** `Interval::new()`: the empty interval, from `+inf` down to `-inf`. It
      contains nothing, not even an infinity. */
  function New(): (i: Interval)
    ensures forall x :: !Contains(i, x) && !Surrounds(i, x)
    ensures Lt(i.max, i.min)
  {
    Interval(PosInf, NegInf)
  }

  const EMPTY: Interval := New()

  const UNIVERSE: Interval := Interval(NegInf, PosInf)

  /** `Interval::from`: the bounds are stored as given. Nothing reorders them,
      so bounds given the wrong way round make an interval that holds nothing. */
  function From(min: Float, max: Float): (i: Interval)
    ensures i.min == min && i.max == max
    ensures Lt(max, min) ==> forall x :: !Contains(i, x)
  {
    Interval(min, max)
  }

  /** `max - min`, negative whenever the bounds are inverted. */
  function Size(i: Interval): (r: Float)
    ensures i.min.Finite? && i.max.Finite? ==> r == Finite(i.max.val - i.min.val)
    ensures Lt(i.max, i.min) ==> Lt(r, Finite(0.0))
    ensures i == EMPTY ==> r == NegInf
    ensures i == UNIVERSE ==> r == PosInf
  {
    Sub(i.max, i.min)
  }

  predicate Contains(i: Interval, x: Float) {
    Le(i.min, x) && Le(x, i.max)
  }

  predicate Surrounds(i: Interval, x: Float) {
    Lt(i.min, x) && Lt(x, i.max)
  }

  /** `x` moved to the nearest bound when it lies outside the interval. */
  function Clamp(i: Interval, x: Float): (r: Float)
    ensures Le(i.min, i.max) && !x.NaN? ==> Contains(i, r)
    ensures Contains(i, x) ==> r == x
    ensures Lt(x, i.min) ==> r == i.min
    ensures Le(i.min, x) && Lt(i.max, x) ==> r == i.max
  {
    if Lt(x, i.min) then i.min
    else if Lt(i.max, x) then i.max
    else x
  }

  lemma UniverseHoldsEveryFinite(x: real)
    ensures Contains(UNIVERSE, Finite(x)) && Surrounds(UNIVERSE, Finite(x))
    ensures Contains(UNIVERSE, PosInf) && !Surrounds(UNIVERSE, PosInf)
  {
  }

  lemma SurroundsImpliesContains(i: Interval, x: Float)
    ensures Surrounds(i, x) ==> Contains(i, x)
  {
  }

  /** The bounds of a non-empty interval are contained but not surrounded. */
  lemma BoundsContainedNotSurrounded(i: Interval)
    requires Le(i.min, i.max)
    ensures Contains(i, i.min) && Contains(i, i.max)
    ensures !Surrounds(i, i.min) && !Surrounds(i, i.max)
  {
  }

  lemma ClampIdempotent(i: Interval, x: Float)
    requires Le(i.min, i.max)
    ensures Clamp(i, Clamp(i, x)) == Clamp(i, x)
  {
  }

  /** On a non-empty interval clamping preserves order. */
  lemma ClampMonotone(i: Interval, x: Float, y: Float)
    requires Le(i.min, i.max) && Le(x, y)
    ensures Le(Clamp(i, x), Clamp(i, y))
  {
  }
}
