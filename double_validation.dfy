/**
 * The dimension check of the `Pudelko` constructor on IEEE 754 doubles rather than on the
 * finite values the rest of the model uses. Comparisons with NaN are false, so the guard
 * `dimension <= 0 || dimension > MaxDimension` lets NaN through; the corrected guard asks for
 * `dimension > 0 && dimension <= MaxDimension` and agrees with the model's `WithinLimits`.
 */
module DoubleValidation {
  import opened Wrappers
  import opened Rounding
  import opened PudelkoLibrary

  /** A `double`: a finite value, NaN, or one of the infinities. */
  datatype Double = Finite(value: real) | NaN | PositiveInfinity | NegativeInfinity

  /** IEEE 754 `x <= y`: false when either side is NaN. */
  predicate AtMost(x: Double, y: Double) {
    match (x, y)
    case (NaN, _) => false
    case (_, NaN) => false
    case (NegativeInfinity, _) => true
    case (_, PositiveInfinity) => true
    case (PositiveInfinity, _) => false
    case (_, NegativeInfinity) => false
    case (Finite(u), Finite(v)) => u <= v
  }

  /** IEEE 754 `x > y`: false when either side is NaN. */
  predicate Above(x: Double, y: Double) {
    !x.NaN? && !y.NaN? && !AtMost(x, y)
  }

  /** `ConvertToMeters` on a double: NaN and the infinities are unchanged by the division. */
  function ToMeters(d: Double, unit: UnitOfMeasure): (r: Double)
    ensures r.Finite? <==> d.Finite?
    ensures r.NaN? <==> d.NaN?
  {
    match d
    case Finite(x) => Finite(ConvertToMeters(x, unit))
    case _ => d
  }

  /** `Math.Round(d, 3)`: NaN and the infinities are returned unchanged. */
  function RoundThousandths(d: Double): (r: Double)
    ensures r.Finite? <==> d.Finite?
    ensures r.NaN? <==> d.NaN?
  {
    match d
    case Finite(x) => Finite(Round(x, 3))
    case _ => d
  }

  /** The guard of `ValidateDimensions` as written: `dimension <= 0 || dimension > MaxDimension`. */
  predicate RejectedAsWritten(d: Double) {
    AtMost(d, Finite(0.0)) || Above(d, Finite(MaxDimension))
  }

  /** A dimension the guard as written lets through: NaN, or a finite length whose rounded value in metres is in (0, 10]. */
  lemma PassesAsWritten(d: Double, unit: UnitOfMeasure)
    ensures !RejectedAsWritten(RoundThousandths(ToMeters(d, unit)))
        <==> d.NaN? || (d.Finite? && WithinLimits(Round(ConvertToMeters(d.value, unit), 3)))
  {
    GuardsDifferOnlyOnNaN(RoundThousandths(ToMeters(d, unit)));
    AcceptedExactly(RoundThousandths(ToMeters(d, unit)));
  }

  /**
   * The constructor as written: it succeeds exactly when every length is NaN or a finite length
   * whose rounded value in metres is in (0, 10], and stores NaN for NaN and the rounded value otherwise.
   */
  function ConstructAsWritten(a: Double, b: Double, c: Double, unit: UnitOfMeasure): (r: Result<seq<Double>, Exception>)
    ensures r.Ok? <==> forall d | d in [a, b, c] :: d.NaN? || (d.Finite? && WithinLimits(Round(ConvertToMeters(d.value, unit), 3)))
    ensures r.Ok? ==> |r.value| == 3 && forall i | 0 <= i < 3 ::
      var d := [a, b, c][i];
      if d.NaN? then r.value[i].NaN? else d.Finite? && r.value[i] == Finite(Round(ConvertToMeters(d.value, unit), 3))
    ensures r.Err? ==> r.error == ArgumentOutOfRange
  {
    PassesAsWritten(a, unit);
    PassesAsWritten(b, unit);
    PassesAsWritten(c, unit);
    var dimensions := [RoundThousandths(ToMeters(a, unit)), RoundThousandths(ToMeters(b, unit)), RoundThousandths(ToMeters(c, unit))];
    if RejectedAsWritten(dimensions[0]) || RejectedAsWritten(dimensions[1]) || RejectedAsWritten(dimensions[2]) then
      Err(ArgumentOutOfRange)
    else
      Ok(dimensions)
  }

  /** `new Pudelko(double.NaN, 1, 1)` is accepted and stores NaN, which no guard-passing length should be. */
  lemma NaNPassesAsWritten()
    ensures !RejectedAsWritten(NaN)
    ensures ConstructAsWritten(NaN, Finite(1.0), Finite(1.0), Meter) == Ok([NaN, Finite(1.0), Finite(1.0)])
  {
    RoundExact(1.0, 3, 1000);
  }

  /** The corrected guard: a dimension is accepted only when `dimension > 0 && dimension <= MaxDimension`. */
  predicate Accepted(d: Double) {
    Above(d, Finite(0.0)) && AtMost(d, Finite(MaxDimension))
  }

  /**
   * The constructor with the corrected guard: it succeeds exactly when the three lengths are finite and
   * the model's `Construct` succeeds on them, and then stores the same lengths that `Construct` keeps.
   */
  function ConstructCorrected(a: Double, b: Double, c: Double, unit: UnitOfMeasure): (r: Result<seq<Double>, Exception>)
    ensures r.Ok? <==> a.Finite? && b.Finite? && c.Finite? && Construct(a.value, b.value, c.value, unit).Ok?
    ensures r.Ok? ==>
      var box := Construct(a.value, b.value, c.value, unit).value;
      r.value == [Finite(Metres(box.a)), Finite(Metres(box.b)), Finite(Metres(box.c))]
    ensures r.Err? ==> r.error == ArgumentOutOfRange
  {
    AcceptedExactly(RoundThousandths(ToMeters(a, unit)));
    AcceptedExactly(RoundThousandths(ToMeters(b, unit)));
    AcceptedExactly(RoundThousandths(ToMeters(c, unit)));
    var dimensions := [RoundThousandths(ToMeters(a, unit)), RoundThousandths(ToMeters(b, unit)), RoundThousandths(ToMeters(c, unit))];
    if Accepted(dimensions[0]) && Accepted(dimensions[1]) && Accepted(dimensions[2]) then
      Ok(dimensions)
    else
      Err(ArgumentOutOfRange)
  }

  /** The corrected guard accepts exactly the finite lengths the model's `WithinLimits` accepts. */
  lemma AcceptedExactly(d: Double)
    ensures Accepted(d) <==> d.Finite? && WithinLimits(d.value)
  {
  }

  /** The two guards disagree on NaN and on nothing else. */
  lemma GuardsDifferOnlyOnNaN(d: Double)
    ensures RejectedAsWritten(d) == Accepted(d) <==> d.NaN?
  {
  }

  /** With the corrected guard a NaN length is an `ArgumentOutOfRangeException`. */
  lemma CorrectedRejectsNaN(b: Double, c: Double, unit: UnitOfMeasure)
    ensures ConstructCorrected(NaN, b, c, unit) == Err(ArgumentOutOfRange)
  {
  }
}
