/** `Math.Round` of .NET with its default midpoint rule, `MidpointRounding.ToEven`, on exact reals. */
module Rounding {

  /** Ten to the power `n`. */
  function Pow10(n: nat): (r: nat)
    ensures r >= 1
  {
    if n == 0 then 1 else 10 * Pow10(n - 1)
  }

  /** `Math.Round(x)`: the nearest integer; a value exactly halfway between two integers goes to the even one. */
  function RoundToEven(x: real): (r: int)
    ensures x - 0.5 <= r as real <= x + 0.5
    ensures (r as real == x - 0.5 || r as real == x + 0.5) ==> r % 2 == 0
  {
    var f := x.Floor;
    var fraction := x - f as real;
    if fraction < 0.5 then f
    else if fraction > 0.5 then f + 1
    else if f % 2 == 0 then f
    else f + 1
  }

  /** The two postconditions of `RoundToEven` determine it: no other integer meets them. */
  lemma {:induction false} RoundToEvenUnique(x: real, n: int)
    requires x - 0.5 <= n as real <= x + 0.5
    requires (n as real == x - 0.5 || n as real == x + 0.5) ==> n % 2 == 0
    ensures n == RoundToEven(x)
  {
  }

  /** An integer rounds to itself. */
  lemma RoundToEvenOfInteger(n: int)
    ensures RoundToEven(n as real) == n
  {
    RoundToEvenUnique(n as real, n);
  }

  /** 10^decimals as a real, the factor that moves `decimals` decimal places into the integer part. */
  function Scale(decimals: nat): (s: real)
    ensures s >= 1.0
  {
    Pow10(decimals) as real
  }

  /** `Math.Round(x, decimals)`: `x` rounded to the nearest multiple of 10^-decimals, ties to even. */
  function Round(x: real, decimals: nat): (r: real)
    ensures r * Scale(decimals) == RoundToEven(x * Scale(decimals)) as real
    ensures x * Scale(decimals) - 0.5 <= r * Scale(decimals) <= x * Scale(decimals) + 0.5
  {
    RoundToEven(x * Scale(decimals)) as real / Scale(decimals)
  }

  /** A value that is a whole number of units of 10^-decimals is left unchanged by rounding to that many decimals. */
  lemma {:induction false} RoundExact(x: real, decimals: nat, n: int)
    requires x * Scale(decimals) == n as real
    ensures Round(x, decimals) == x
  {
    RoundToEvenUnique(x * Scale(decimals), n);
  }

  /** In particular n * 10^-decimals rounds to itself. */
  lemma {:induction false} RoundOnGrid(n: int, decimals: nat)
    ensures Round(n as real / Scale(decimals), decimals) == n as real / Scale(decimals)
  {
    RoundExact(n as real / Scale(decimals), decimals, n);
  }

  /** Rounding twice to the same number of decimals is rounding once. */
  lemma {:induction false} RoundIdempotent(x: real, decimals: nat)
    ensures Round(Round(x, decimals), decimals) == Round(x, decimals)
  {
    RoundOnGrid(RoundToEven(x * Scale(decimals)), decimals);
  }
}
