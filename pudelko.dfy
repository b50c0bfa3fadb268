/**
 * The immutable box `Pudelko`: three dimensions and the unit of measure it was built with.
 * Each dimension is held in metres rounded to three decimals, that is, in whole
 * millimetres, and lies in (0, 10] m. Exceptions are returned as `Err` values.
 */
module PudelkoLibrary {
  import opened Wrappers
  import opened Rounding

  datatype UnitOfMeasure = Milimeter | Centimeter | Meter

  /** The exceptions the class throws. */
  datatype Exception =
    | ArgumentOutOfRange  // ArgumentOutOfRangeException
    | ArgumentNull        // ArgumentNullException
    | Format              // FormatException
    | IndexOutOfRange     // IndexOutOfRangeException

  /** A C# `int`. */
  newtype Int32 = x: int | -0x8000_0000 <= x < 0x8000_0000

  /** 10 cm, the default of every dimension, in the caller's unit. */
  const DefaultDimension: real := 0.1

  /** 10 m, the largest dimension allowed. */
  const MaxDimension: real := 10.0

  /** MaxDimension in millimetres. */
  const MaxMillimetres: int := 10000

  /** A stored dimension, `Math.Round(x, 3)` metres, in whole millimetres; validation keeps it in (0, 10] m. */
  type Millimetres = n: int | 1 <= n <= 10000 witness 100

  /** The fields `a`, `b`, `c` (in millimetres) and `Unit`. */
  datatype Pudelko = Pudelko(a: Millimetres, b: Millimetres, c: Millimetres, unit: UnitOfMeasure)

  /** `n` millimetres in metres. */
  function Metres(n: int): real {
    n as real / 1000.0
  }

  // ---------------------------------------------------------------- construction

  /** `ConvertToMeters`: a value in `unit` expressed in metres; so many metres make `value` in `unit` again. */
  function ConvertToMeters(value: real, unit: UnitOfMeasure): (metres: real)
    ensures unit == Meter ==> metres == value
    ensures unit == Centimeter ==> metres * 100.0 == value
    ensures unit == Milimeter ==> metres * 1000.0 == value
  {
    match unit
    case Milimeter => value / 1000.0
    case Centimeter => value / 100.0
    case Meter => value
  }

  /** `Math.Round(x, 3)` counted in millimetres: the whole number of millimetres nearest to `x` metres. */
  function MillimetresOf(x: real): int {
    RoundToEven(x * Scale(3))
  }

  /** Rounding a length in metres to three decimals is rounding it to whole millimetres. */
  lemma RoundToMillimetres(x: real)
    ensures Round(x, 3) == Metres(MillimetresOf(x))
    ensures x - 0.0005 <= Round(x, 3) <= x + 0.0005
  {
    assert Scale(3) == 1000.0;
  }

  /** A length that is a whole number `n` of millimetres is stored as exactly `n`. */
  lemma {:induction false} MillimetresOfExact(x: real, n: int)
    requires x * 1000.0 == n as real
    ensures MillimetresOf(x) == n
  {
    assert Scale(3) == 1000.0;
    RoundToEvenUnique(x * Scale(3), n);
  }

  /** The test `ValidateDimensions` applies: positive and at most `MaxDimension`. */
  predicate WithinLimits(dimension: real) {
    !(dimension <= 0.0 || dimension > MaxDimension)
  }

  /** `ValidateDimensions`: throws on the first dimension outside (0, 10] m. */
  method ValidateDimensions(dimensions: seq<real>) returns (outcome: Outcome<Exception>)
    ensures outcome.Pass? <==> forall i :: 0 <= i < |dimensions| ==> WithinLimits(dimensions[i])
    ensures outcome.Fail? ==> outcome.error == ArgumentOutOfRange
  {
    for i := 0 to |dimensions|
      invariant forall j :: 0 <= j < i ==> WithinLimits(dimensions[j])
    {
      if dimensions[i] <= 0.0 || dimensions[i] > MaxDimension {
        return Fail(ArgumentOutOfRange);
      }
    }
    return Pass;
  }

  /**
   * What the constructor `new Pudelko(a, b, c, unit)` produces: each dimension converted
   * to metres and rounded to three decimals, then all three checked.
   */
  function Construct(a: real := DefaultDimension, b: real := DefaultDimension, c: real := DefaultDimension,
                     unit: UnitOfMeasure := Meter): (r: Result<Pudelko, Exception>)
    ensures r.Ok? <==>
      WithinLimits(Round(ConvertToMeters(a, unit), 3))
      && WithinLimits(Round(ConvertToMeters(b, unit), 3))
      && WithinLimits(Round(ConvertToMeters(c, unit), 3))
    ensures r.Ok? ==>
      Metres(r.value.a) == Round(ConvertToMeters(a, unit), 3)
      && Metres(r.value.b) == Round(ConvertToMeters(b, unit), 3)
      && Metres(r.value.c) == Round(ConvertToMeters(c, unit), 3)
      && r.value.unit == unit
    ensures r.Err? ==> r.error == ArgumentOutOfRange
  {
    RoundToMillimetres(ConvertToMeters(a, unit));
    RoundToMillimetres(ConvertToMeters(b, unit));
    RoundToMillimetres(ConvertToMeters(c, unit));
    var ka := MillimetresOf(ConvertToMeters(a, unit));
    var kb := MillimetresOf(ConvertToMeters(b, unit));
    var kc := MillimetresOf(ConvertToMeters(c, unit));
    if WithinLimits(Metres(ka)) && WithinLimits(Metres(kb)) && WithinLimits(Metres(kc)) then
      Ok(Pudelko(ka, kb, kc, unit))
    else
      Err(ArgumentOutOfRange)
  }

  /** The constructor accepts exactly the inputs whose rounded lengths are 1..10000 mm, and stores those. */
  lemma ConstructInMillimetres(a: real, b: real, c: real, unit: UnitOfMeasure)
    ensures var ka, kb, kc :=
      MillimetresOf(ConvertToMeters(a, unit)), MillimetresOf(ConvertToMeters(b, unit)), MillimetresOf(ConvertToMeters(c, unit));
      Construct(a, b, c, unit)
        == if 1 <= ka <= MaxMillimetres && 1 <= kb <= MaxMillimetres && 1 <= kc <= MaxMillimetres
           then Ok(Pudelko(ka, kb, kc, unit))
           else Err(ArgumentOutOfRange)
  {
    RoundToMillimetres(ConvertToMeters(a, unit));
    RoundToMillimetres(ConvertToMeters(b, unit));
    RoundToMillimetres(ConvertToMeters(c, unit));
  }

  /** The stored lengths of a box, in metres, build that box again. */
  lemma {:induction false} ConstructFromStored(a: Millimetres, b: Millimetres, c: Millimetres)
    ensures Construct(Metres(a), Metres(b), Metres(c), Meter) == Ok(Pudelko(a, b, c, Meter))
  {
    MillimetresOfExact(Metres(a), a);
    MillimetresOfExact(Metres(b), b);
    MillimetresOfExact(Metres(c), c);
    ConstructInMillimetres(Metres(a), Metres(b), Metres(c), Meter);
  }

  /** The constructor `new Pudelko(a, b, c, unit)`: assigns the rounded fields, then validates them. */
  method New(a: real := DefaultDimension, b: real := DefaultDimension, c: real := DefaultDimension,
             unit: UnitOfMeasure := Meter) returns (r: Result<Pudelko, Exception>)
    ensures r == Construct(a, b, c, unit)
  {
    var ra := Round(ConvertToMeters(a, unit), 3);
    var rb := Round(ConvertToMeters(b, unit), 3);
    var rc := Round(ConvertToMeters(c, unit), 3);
    var dimensions := [ra, rb, rc];
    var outcome := ValidateDimensions(dimensions);
    if outcome.Fail? {
      assert !WithinLimits(dimensions[0]) || !WithinLimits(dimensions[1]) || !WithinLimits(dimensions[2]);
      return Err(outcome.error);
    }
    assert WithinLimits(dimensions[0]) && WithinLimits(dimensions[1]) && WithinLimits(dimensions[2]);
    RoundToMillimetres(ConvertToMeters(a, unit));
    RoundToMillimetres(ConvertToMeters(b, unit));
    RoundToMillimetres(ConvertToMeters(c, unit));
    r := Ok(Pudelko(MillimetresOf(ConvertToMeters(a, unit)), MillimetresOf(ConvertToMeters(b, unit)),
                    MillimetresOf(ConvertToMeters(c, unit)), unit));
  }

  // ---------------------------------------------------------------- properties A, B, C

  /** `A`: the stored `a`, rounded again to three decimals, which leaves it unchanged. */
  function A(p: Pudelko): (r: real)
    ensures r == Metres(p.a) && 0.0 < r <= MaxDimension
  {
    assert Scale(3) == 1000.0;
    RoundExact(Metres(p.a), 3, p.a);
    Round(Metres(p.a), 3)
  }

  /** `B`, as `A` for the second dimension. */
  function B(p: Pudelko): (r: real)
    ensures r == Metres(p.b) && 0.0 < r <= MaxDimension
  {
    assert Scale(3) == 1000.0;
    RoundExact(Metres(p.b), 3, p.b);
    Round(Metres(p.b), 3)
  }

  /** `C`, as `A` for the third dimension. */
  function C(p: Pudelko): (r: real)
    ensures r == Metres(p.c) && 0.0 < r <= MaxDimension
  {
    assert Scale(3) == 1000.0;
    RoundExact(Metres(p.c), 3, p.c);
    Round(Metres(p.c), 3)
  }

  // ---------------------------------------------------------------- volume and surface area

  /** The product of three whole numbers, seen as reals. */
  lemma RealProduct(x: int, y: int, z: int)
    ensures (x * y * z) as real == x as real * y as real * z as real
  {
    assert (x * y) as real == x as real * y as real;
  }

  /** `Objetosc`, the volume in cubic metres: a·b·c rounded to nine decimals, which is exact on whole millimetres. */
  function Objetosc(p: Pudelko): (v: real)
    ensures v * 1_000_000_000.0 == (p.a * p.b * p.c) as real
  {
    var x := Metres(p.a) * Metres(p.b) * Metres(p.c);
    RealProduct(p.a, p.b, p.c);
    assert Scale(9) == 1_000_000_000.0;
    Cubic(Metres(p.a), Metres(p.b), Metres(p.c), p.a, p.b, p.c);
    RoundExact(x, 9, p.a * p.b * p.c);
    Round(x, 9)
  }

  /** (a/1000)(b/1000)(c/1000)·10^9 = abc, over plain parameters. */
  lemma Cubic(x: real, y: real, z: real, a: int, b: int, c: int)
    requires x * 1000.0 == a as real && y * 1000.0 == b as real && z * 1000.0 == c as real
    ensures x * y * z * 1_000_000_000.0 == a as real * b as real * c as real
  {
  }

  /** `Pole`, the surface area in square metres: 2(ab + bc + ac) rounded to six decimals, exact on whole millimetres. */
  function Pole(p: Pudelko): (s: real)
    ensures s * 1_000_000.0 == (2 * (p.a * p.b + p.b * p.c + p.a * p.c)) as real
  {
    var x := 2.0 * (Metres(p.a) * Metres(p.b) + Metres(p.b) * Metres(p.c) + Metres(p.a) * Metres(p.c));
    var n := 2 * (p.a * p.b + p.b * p.c + p.a * p.c);
    assert Scale(6) == 1_000_000.0;
    Quadratic(Metres(p.a), Metres(p.b), Metres(p.c), p.a, p.b, p.c);
    RoundExact(x, 6, n);
    Round(x, 6)
  }

  /** 2((a/1000)(b/1000) + …)·10^6 = 2(ab + bc + ac), over plain parameters. */
  lemma Quadratic(x: real, y: real, z: real, a: int, b: int, c: int)
    requires x * 1000.0 == a as real && y * 1000.0 == b as real && z * 1000.0 == c as real
    ensures 2.0 * (x * y + y * z + x * z) * 1_000_000.0 == (2 * (a * b + b * c + a * c)) as real
  {
    assert (a * b) as real == a as real * b as real;
    assert (b * c) as real == b as real * c as real;
    assert (a * c) as real == a as real * c as real;
  }

  // ---------------------------------------------------------------- sequence access

  /** The explicit conversion to `double[]`: `{ A, B, C }`. */
  function ToArray(p: Pudelko): (r: seq<real>)
    ensures r == [Metres(p.a), Metres(p.b), Metres(p.c)]
  {
    [A(p), B(p), C(p)]
  }

  /** The indexer `this[index]`. */
  function Index(p: Pudelko, index: Int32): (r: Result<real, Exception>)
    ensures r.Ok? <==> 0 <= index <= 2
    ensures r.Ok? ==> r.value == ToArray(p)[index]
    ensures r.Err? ==> r.error == IndexOutOfRange
  {
    if index < 0 || index > 2 then Err(IndexOutOfRange)
    else if index == 0 then Ok(A(p))
    else if index == 1 then Ok(B(p))
    else Ok(C(p))
  }

  /** The enumerator `GetEnumerator` returns: it yields `A`, `B`, `C`, then stops. */
  class Enumerator {
    const box: Pudelko
    /** How many values have been yielded. */
    var position: nat
    /** `Current`: the last value yielded (0 before the first). */
    var current: real

    ghost predicate Valid()
      reads this
    {
      position <= 3 && (position > 0 ==> current == ToArray(box)[position - 1])
    }

    /** The values yielded so far. */
    ghost function Yielded(): seq<real>
      reads this
      requires Valid()
    {
      ToArray(box)[..position]
    }

    constructor (p: Pudelko)
      ensures Valid() && box == p && Yielded() == []
    {
      box := p;
      position := 0;
      current := 0.0;
    }

    /** `MoveNext`: advances to the next of `A`, `B`, `C`; false once all three are done. */
    method MoveNext() returns (more: bool)
      requires Valid()
      modifies this
      ensures Valid()
      ensures more <==> old(position) < 3
      ensures more ==> current == ToArray(box)[old(position)]
      ensures !more ==> current == old(current) && position == old(position)
      ensures Yielded() == if more then old(Yielded()) + [current] else old(Yielded())
    {
      if position < 3 {
        current := if position == 0 then A(box) else if position == 1 then B(box) else C(box);
        position := position + 1;
        more := true;
      } else {
        more := false;
      }
    }
  }

  /** `GetEnumerator`: a new enumerator positioned before `A`. */
  method GetEnumerator(p: Pudelko) returns (e: Enumerator)
    ensures fresh(e) && e.Valid() && e.box == p && e.Yielded() == []
  {
    e := new Enumerator(p);
  }

  // ---------------------------------------------------------------- equality and hashing

  predicate Ascending(s: seq<real>) {
    forall i, j :: 0 <= i < j < |s| ==> s[i] <= s[j]
  }

  /** One compare-exchange step: puts the smaller of `s[i]`, `s[j]` at `i` and the larger at `j`. */
  function CompareSwap(s: seq<real>, i: nat, j: nat): (r: seq<real>)
    requires i < j < |s|
    ensures |r| == |s| && multiset(r) == multiset(s)
    ensures r[i] == (if s[i] <= s[j] then s[i] else s[j]) && r[j] == (if s[i] <= s[j] then s[j] else s[i])
    ensures forall k :: 0 <= k < |s| && k != i && k != j ==> r[k] == s[k]
  {
    if s[i] > s[j] then s[i := s[j]][j := s[i]] else s
  }

  /** What `Array.Sort` leaves in a three-element array: the same values in ascending order. */
  function Sort3(s: seq<real>): (r: seq<real>)
    requires |s| == 3
    ensures |r| == 3 && Ascending(r) && multiset(r) == multiset(s)
  {
    var first := CompareSwap(s, 0, 1);
    var second := CompareSwap(first, 1, 2);
    assert second[0] == first[0] <= first[1];
    CompareSwap(second, 0, 1)
  }

  /** The values of a non-empty sequence without its first element. */
  lemma MultisetTail(s: seq<real>)
    requires s != []
    ensures multiset(s[1..]) == multiset(s) - multiset{s[0]}
  {
    assert s == [s[0]] + s[1..];
  }

  /** The first element of an ascending sequence is its least value. */
  lemma AscendingFirstIsLeast(s: seq<real>, x: real)
    requires Ascending(s) && x in multiset(s)
    ensures s != [] && s[0] <= x
  {
    var i :| 0 <= i < |s| && s[i] == x;
    assert i == 0 || s[0] <= s[i];
  }

  lemma AscendingTail(s: seq<real>)
    requires Ascending(s) && s != []
    ensures Ascending(s[1..])
  {
  }

  /** Ascending sequences holding the same values start with the same value. */
  lemma FirstsEqual(s: seq<real>, t: seq<real>)
    requires Ascending(s) && Ascending(t) && multiset(s) == multiset(t) && s != []
    ensures t != [] && s[0] == t[0]
  {
    assert s[0] in multiset(t);
    AscendingFirstIsLeast(t, s[0]);
    assert t[0] in multiset(s);
    AscendingFirstIsLeast(s, t[0]);
  }

  /** Two ascending sequences holding the same values are the same sequence. */
  lemma {:induction false} AscendingUnique(s: seq<real>, t: seq<real>)
    requires Ascending(s) && Ascending(t) && multiset(s) == multiset(t)
    ensures s == t
  {
    if s != [] {
      FirstsEqual(s, t);
      MultisetTail(s);
      MultisetTail(t);
      AscendingTail(s);
      AscendingTail(t);
      AscendingUnique(s[1..], t[1..]);
      assert s == [s[0]] + s[1..] && t == [t[0]] + t[1..];
    } else {
      assert |t| == |multiset(t)| == 0;
    }
  }

  /** `Array.Sort` on the three-element arrays the class builds, by three compare-exchange steps. */
  method SortDimensions(dimensions: array<real>)
    requires dimensions.Length == 3
    modifies dimensions
    ensures dimensions[..] == Sort3(old(dimensions[..]))
  {
    CompareExchange(dimensions, 0, 1);
    CompareExchange(dimensions, 1, 2);
    CompareExchange(dimensions, 0, 1);
  }

  /** Swaps `a[i]` and `a[j]` when they are out of order. */
  method CompareExchange(a: array<real>, i: nat, j: nat)
    requires i < j < a.Length
    modifies a
    ensures a[..] == CompareSwap(old(a[..]), i, j)
  {
    if a[i] > a[j] {
      a[i], a[j] := a[j], a[i];
    }
  }

  /** `Equals(Pudelko)` on a non-null argument: the sorted dimensions agree. */
  predicate Equal(p: Pudelko, q: Pudelko) {
    Sort3(ToArray(p)) == Sort3(ToArray(q))
  }

  /** Two boxes are equal exactly when one's dimensions are a rearrangement of the other's. */
  lemma EqualIffPermutation(p: Pudelko, q: Pudelko)
    ensures Equal(p, q) <==> multiset(ToArray(p)) == multiset(ToArray(q))
  {
    if multiset(ToArray(p)) == multiset(ToArray(q)) {
      AscendingUnique(Sort3(ToArray(p)), Sort3(ToArray(q)));
    }
  }

  /** Equality ignores a rotation of the dimensions and the unit. */
  lemma EqualUnderRotation(p: Pudelko, unit: UnitOfMeasure)
    ensures Equal(p, Pudelko(p.b, p.c, p.a, unit))
  {
    var q := Pudelko(p.b, p.c, p.a, unit);
    var x, y, z := Metres(p.a), Metres(p.b), Metres(p.c);
    assert multiset([x, y, z]) == multiset([y, z, x]);
    EqualIffPermutation(p, q);
  }

  /** Equality ignores the exchange of the first two dimensions and the unit. */
  lemma EqualUnderSwap(p: Pudelko, unit: UnitOfMeasure)
    ensures Equal(p, Pudelko(p.b, p.a, p.c, unit))
  {
    var q := Pudelko(p.b, p.a, p.c, unit);
    var x, y, z := Metres(p.a), Metres(p.b), Metres(p.c);
    assert multiset([x, y, z]) == multiset([y, x, z]);
    EqualIffPermutation(p, q);
  }

  /** Equality is reflexive, symmetric and transitive. */
  lemma EqualIsEquivalence(p: Pudelko, q: Pudelko, s: Pudelko)
    ensures Equal(p, p)
    ensures Equal(p, q) ==> Equal(q, p)
    ensures Equal(p, q) && Equal(q, s) ==> Equal(p, s)
  {
  }

  /** `Equals(Pudelko other)`: false for null, otherwise compares the sorted `{ A, B, C }` arrays. */
  method Equals(p: Pudelko, other: Option<Pudelko>) returns (equal: bool)
    ensures equal <==> other.Some? && Equal(p, other.value)
  {
    if other.None? {
      return false;
    }
    var dimensions := new real[3] [A(p), B(p), C(p)];
    var otherDimensions := new real[3] [A(other.value), B(other.value), C(other.value)];
    assert dimensions[..] == ToArray(p);
    assert otherDimensions[..] == ToArray(other.value);
    SortDimensions(dimensions);
    SortDimensions(otherDimensions);
    equal := dimensions[..] == otherDimensions[..];
  }

  /** The hash `GetHashCode` computes: `combine` (standing for `HashCode.Combine`) of the sorted dimensions. */
  function HashCode(p: Pudelko, combine: (real, real, real) -> int): int {
    var s := Sort3(ToArray(p));
    combine(s[0], s[1], s[2])
  }

  /** `GetHashCode`: sorts `{ A, B, C }` in place and combines the three values. */
  method GetHashCode(p: Pudelko, combine: (real, real, real) -> int) returns (h: int)
    ensures h == HashCode(p, combine)
  {
    var dimensions := new real[3] [A(p), B(p), C(p)];
    assert dimensions[..] == ToArray(p);
    SortDimensions(dimensions);
    h := combine(dimensions[0], dimensions[1], dimensions[2]);
  }

  /** Boxes whose dimensions are rearrangements of each other hash alike, whatever the combining function. */
  lemma HashRespectsEqual(p: Pudelko, q: Pudelko, combine: (real, real, real) -> int)
    requires multiset(ToArray(p)) == multiset(ToArray(q))
    ensures Equal(p, q) && HashCode(p, combine) == HashCode(q, combine)
  {
    EqualIffPermutation(p, q);
  }

  /** `Equals(Pudelko)` as a function of its (possibly null) argument. */
  predicate EqualsBox(p: Pudelko, other: Option<Pudelko>) {
    other.Some? && Equal(p, other.value)
  }

  /** `operator ==`: two nulls are equal; otherwise `left.Equals(right)`. */
  function OpEquality(left: Option<Pudelko>, right: Option<Pudelko>): (equal: bool)
    ensures left.None? ==> (equal <==> right.None?)
    ensures right.None? ==> (equal <==> left.None?)
    ensures left.Some? && right.Some? ==>
      (equal <==> multiset(ToArray(left.value)) == multiset(ToArray(right.value)))
  {
    if left.None? then right.None?
    else if right.None? then EqualsBox(left.value, right)
    else
      EqualIffPermutation(left.value, right.value);
      EqualsBox(left.value, right)
  }

  /** `operator !=`: the negation of `==`. */
  function OpInequality(left: Option<Pudelko>, right: Option<Pudelko>): (different: bool)
    ensures different <==> !OpEquality(left, right)
  {
    !OpEquality(left, right)
  }

  /** `==` is an equivalence on boxes and null. */
  lemma OpEqualityIsEquivalence(x: Option<Pudelko>, y: Option<Pudelko>, z: Option<Pudelko>)
    ensures OpEquality(x, x)
    ensures OpEquality(x, y) ==> OpEquality(y, x)
    ensures OpEquality(x, y) && OpEquality(y, z) ==> OpEquality(x, z)
  {
    if x.Some? && y.Some? && z.Some? {
      EqualIsEquivalence(x.value, y.value, z.value);
    } else if x.Some? {
      EqualIsEquivalence(x.value, x.value, x.value);
    }
  }

  // ---------------------------------------------------------------- arithmetic and conversions

  /** `operator +`: the position-wise sums of `A`, `B`, `C`, built in metres. */
  function Add(p1: Pudelko, p2: Pudelko): (r: Result<Pudelko, Exception>)
    ensures r.Ok? <==> p1.a + p2.a <= MaxMillimetres && p1.b + p2.b <= MaxMillimetres && p1.c + p2.c <= MaxMillimetres
    ensures r.Ok? ==> r.value == Pudelko(p1.a + p2.a, p1.b + p2.b, p1.c + p2.c, Meter)
    ensures r.Err? ==> r.error == ArgumentOutOfRange
  {
    MillimetresOfExact(A(p1) + A(p2), p1.a + p2.a);
    MillimetresOfExact(B(p1) + B(p2), p1.b + p2.b);
    MillimetresOfExact(C(p1) + C(p2), p1.c + p2.c);
    ConstructInMillimetres(A(p1) + A(p2), B(p1) + B(p2), C(p1) + C(p2), Meter);
    Construct(A(p1) + A(p2), B(p1) + B(p2), C(p1) + C(p2), Meter)
  }

  /** The implicit conversion from `(int a, int b, int c)`: millimetres, built in metres. */
  function FromTuple(dimensions: (Int32, Int32, Int32)): (r: Result<Pudelko, Exception>)
    ensures r.Ok? <==>
      1 <= dimensions.0 as int <= MaxMillimetres
      && 1 <= dimensions.1 as int <= MaxMillimetres
      && 1 <= dimensions.2 as int <= MaxMillimetres
    ensures r.Ok? ==> r.value == Pudelko(dimensions.0 as int, dimensions.1 as int, dimensions.2 as int, Meter)
    ensures r.Err? ==> r.error == ArgumentOutOfRange
  {
    var a, b, c := dimensions.0 as int, dimensions.1 as int, dimensions.2 as int;
    MillimetresOfExact(a as real / 1000.0, a);
    MillimetresOfExact(b as real / 1000.0, b);
    MillimetresOfExact(c as real / 1000.0, c);
    ConstructInMillimetres(a as real / 1000.0, b as real / 1000.0, c as real / 1000.0, Meter);
    Construct(a as real / 1000.0, b as real / 1000.0, c as real / 1000.0, Meter)
  }

  // ---------------------------------------------------------------- properties of the model

  /** Bounds on a product of two dimensions. */
  lemma ProductBounds(x: int, y: int, limit: int)
    requires 1 <= x <= MaxMillimetres && 1 <= y && y <= limit
    ensures 1 <= x * y <= MaxMillimetres * limit
  {
    assert x * y <= MaxMillimetres * y;
  }

  /** A box holds between one cubic millimetre and 1000 cubic metres. */
  lemma VolumeBounds(p: Pudelko)
    ensures 0.0 < Objetosc(p) <= 1000.0
  {
    ProductBounds(p.a, p.b, MaxMillimetres);
    ProductBounds(p.c, p.a * p.b, MaxMillimetres * MaxMillimetres);
    assert 1 <= p.c * (p.a * p.b) <= 1_000_000_000_000;
    assert p.a * p.b * p.c == p.c * (p.a * p.b);
  }

  /** A box's surface lies between six square millimetres and 600 square metres. */
  lemma AreaBounds(p: Pudelko)
    ensures 0.0 < Pole(p) <= 600.0
  {
    ProductBounds(p.a, p.b, MaxMillimetres);
    ProductBounds(p.b, p.c, MaxMillimetres);
    ProductBounds(p.a, p.c, MaxMillimetres);
  }

  /** A one-metre cube has volume 1 m³ and area 6 m²; a half-metre cube has area 1.5 m². */
  lemma MetricsExamples(unit: UnitOfMeasure)
    ensures Objetosc(Pudelko(1000, 1000, 1000, unit)) == 1.0
    ensures Pole(Pudelko(1000, 1000, 1000, unit)) == 6.0
    ensures Pole(Pudelko(500, 500, 500, unit)) == 1.5
  {
    var cube := Pudelko(1000, 1000, 1000, unit);
    assert Objetosc(cube) * 1_000_000_000.0 == 1_000_000_000.0;
    assert Pole(cube) * 1_000_000.0 == 6_000_000.0;
    assert Pole(Pudelko(500, 500, 500, unit)) * 1_000_000.0 == 1_500_000.0;
  }

  /** The product of three dimensions. */
  function Product3(s: seq<real>): real
    requires |s| == 3
  {
    s[0] * s[1] * s[2]
  }

  /** The sum of the pairwise products of three dimensions. */
  function PairProducts(s: seq<real>): real
    requires |s| == 3
  {
    s[0] * s[1] + s[1] * s[2] + s[0] * s[2]
  }

  lemma CompareSwapKeepsProducts(s: seq<real>, i: nat, j: nat)
    requires |s| == 3 && i < j < 3
    ensures Product3(CompareSwap(s, i, j)) == Product3(s)
    ensures PairProducts(CompareSwap(s, i, j)) == PairProducts(s)
  {
  }

  /** Sorting three dimensions keeps their product and the sum of their pairwise products. */
  lemma Sort3KeepsProducts(s: seq<real>)
    requires |s| == 3
    ensures Product3(Sort3(s)) == Product3(s) && PairProducts(Sort3(s)) == PairProducts(s)
  {
    CompareSwapKeepsProducts(s, 0, 1);
    CompareSwapKeepsProducts(CompareSwap(s, 0, 1), 1, 2);
    CompareSwapKeepsProducts(CompareSwap(CompareSwap(s, 0, 1), 1, 2), 0, 1);
  }

  /** The volume and area are the products of `A`, `B`, `C`. */
  lemma MetricsOfArray(p: Pudelko)
    ensures Objetosc(p) == Product3(ToArray(p))
    ensures Pole(p) == 2.0 * PairProducts(ToArray(p))
  {
    VolumeOfArray(p);
    AreaOfArray(p);
  }

  lemma VolumeOfArray(p: Pudelko)
    ensures Objetosc(p) == Product3(ToArray(p))
  {
    var s := ToArray(p);
    RealProduct(p.a, p.b, p.c);
    Cubic(s[0], s[1], s[2], p.a, p.b, p.c);
    SameScaled(Objetosc(p), Product3(s), 1_000_000_000.0);
  }

  lemma AreaOfArray(p: Pudelko)
    ensures Pole(p) == 2.0 * PairProducts(ToArray(p))
  {
    var s := ToArray(p);
    Quadratic(s[0], s[1], s[2], p.a, p.b, p.c);
    SameScaled(Pole(p), 2.0 * PairProducts(s), 1_000_000.0);
  }

  /** Two reals with the same positive multiple are equal. */
  lemma SameScaled(x: real, y: real, k: real)
    requires k > 0.0 && x * k == y * k
    ensures x == y
  {
  }

  /** Equal boxes have the same volume and the same surface area. */
  lemma EqualBoxesSameMetrics(p: Pudelko, q: Pudelko)
    requires Equal(p, q)
    ensures Objetosc(p) == Objetosc(q) && Pole(p) == Pole(q)
  {
    SortedProductsAgree(ToArray(p), ToArray(q));
    MetricsOfArray(p);
    MetricsOfArray(q);
  }

  /** Sequences that sort to the same sequence have the same product and the same pairwise products. */
  lemma SortedProductsAgree(s: seq<real>, t: seq<real>)
    requires |s| == 3 && |t| == 3 && Sort3(s) == Sort3(t)
    ensures Product3(s) == Product3(t) && PairProducts(s) == PairProducts(t)
  {
    Sort3KeepsProducts(s);
    Sort3KeepsProducts(t);
  }

  /** Addition is commutative. */
  lemma AddCommutative(p1: Pudelko, p2: Pudelko)
    ensures Add(p1, p2) == Add(p2, p1)
  {
  }

  /** 1 m × 2 m × 3 m plus 4 m × 5 m × 6 m is 5 m × 7 m × 9 m; 6 m sides cannot be doubled. */
  lemma AddExamples()
    ensures Add(Pudelko(1000, 2000, 3000, Centimeter), Pudelko(4000, 5000, 6000, Milimeter))
      == Ok(Pudelko(5000, 7000, 9000, Meter))
    ensures Add(Pudelko(6000, 1000, 1000, Meter), Pudelko(6000, 1000, 1000, Meter)) == Err(ArgumentOutOfRange)
  {
  }

  /** Addition pairs `A` with `A`, so it does not respect equality: equal boxes can have unequal sums. */
  lemma AddIgnoresEqual()
    ensures Equal(Pudelko(3000, 2000, 1000, Meter), Pudelko(1000, 2000, 3000, Meter))
    ensures Add(Pudelko(3000, 2000, 1000, Meter), Pudelko(4000, 5000, 6000, Meter)) == Ok(Pudelko(7000, 7000, 7000, Meter))
    ensures Add(Pudelko(1000, 2000, 3000, Meter), Pudelko(4000, 5000, 6000, Meter)) == Ok(Pudelko(5000, 7000, 9000, Meter))
    ensures !Equal(Pudelko(7000, 7000, 7000, Meter), Pudelko(5000, 7000, 9000, Meter))
  {
    EqualUnderRotation(Pudelko(3000, 2000, 1000, Meter), Meter);
    EqualUnderSwap(Pudelko(2000, 1000, 3000, Meter), Meter);
    EqualIsEquivalence(Pudelko(3000, 2000, 1000, Meter), Pudelko(2000, 1000, 3000, Meter), Pudelko(1000, 2000, 3000, Meter));
  }

  /** A length within half a millimetre of `n` millimetres (not a tie) is stored as `n`. */
  lemma MillimetresOfNear(x: real, n: int)
    requires n as real - 0.5 < x * 1000.0 < n as real + 0.5
    ensures MillimetresOf(x) == n
  {
    assert Scale(3) == 1000.0;
    RoundToEvenUnique(x * Scale(3), n);
  }

  /** A length exactly half a millimetre above an even number n of millimetres is stored as n. */
  lemma TieToEven(x: real, n: int)
    requires x * 1000.0 == n as real + 0.5 && n % 2 == 0
    ensures MillimetresOf(x) == n
  {
    assert Scale(3) == 1000.0;
    RoundToEvenUnique(x * Scale(3), n);
  }

  /** The defaults: 10 cm in metres; in centimetres 1 mm; in millimetres 0.1 mm, which rounds to nothing. */
  lemma DefaultsFollowTheUnit()
    ensures Construct() == Ok(Pudelko(100, 100, 100, Meter))
    ensures Construct(unit := Centimeter) == Ok(Pudelko(1, 1, 1, Centimeter))
    ensures Construct(unit := Milimeter) == Err(ArgumentOutOfRange)
    ensures Construct(2.5, 9.321) == Ok(Pudelko(2500, 9321, 100, Meter))
  {
    MillimetresOfExact(0.1, 100);
    ConstructInMillimetres(0.1, 0.1, 0.1, Meter);
    MillimetresOfExact(0.1 / 100.0, 1);
    ConstructInMillimetres(0.1, 0.1, 0.1, Centimeter);
    MillimetresOfNear(0.1 / 1000.0, 0);
    ConstructInMillimetres(0.1, 0.1, 0.1, Milimeter);
    MillimetresOfExact(2.5, 2500);
    MillimetresOfExact(9.321, 9321);
    ConstructInMillimetres(2.5, 9.321, 0.1, Meter);
  }

  /** Rounding comes before the range check: 10.0004 m is kept as 10 m, while 10.001 m and 0.0004 m are refused. */
  lemma RoundingBeforeValidation()
    ensures Construct(10.0004) == Ok(Pudelko(10000, 100, 100, Meter))
    ensures Construct(10.0005) == Ok(Pudelko(10000, 100, 100, Meter))
    ensures Construct(10.001) == Err(ArgumentOutOfRange)
    ensures Construct(0.0004) == Err(ArgumentOutOfRange)
    ensures Construct(1000.04, unit := Centimeter) == Ok(Pudelko(10000, 1, 1, Centimeter))
  {
    MillimetresOfExact(0.1, 100);
    MillimetresOfNear(10.0004, 10000);
    ConstructInMillimetres(10.0004, 0.1, 0.1, Meter);
    TieToEven(10.0005, 10000);
    ConstructInMillimetres(10.0005, 0.1, 0.1, Meter);
    MillimetresOfExact(10.001, 10001);
    ConstructInMillimetres(10.001, 0.1, 0.1, Meter);
    MillimetresOfNear(0.0004, 0);
    ConstructInMillimetres(0.0004, 0.1, 0.1, Meter);
    MillimetresOfNear(1000.04 / 100.0, 10000);
    MillimetresOfExact(0.1 / 100.0, 1);
    ConstructInMillimetres(1000.04, 0.1, 0.1, Centimeter);
  }

  /** A tuple of millimetres converts to a box whose `A`, `B`, `C` give the same millimetres back. */
  lemma TupleRoundTrip(a: Millimetres, b: Millimetres, c: Millimetres)
    ensures FromTuple((a as Int32, b as Int32, c as Int32)) == Ok(Pudelko(a, b, c, Meter))
    ensures var p := Pudelko(a, b, c, Meter);
      (A(p) * 1000.0).Floor == a && (B(p) * 1000.0).Floor == b && (C(p) * 1000.0).Floor == c
  {
  }
}
