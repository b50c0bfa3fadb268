# Pudelko in Dafny

This is a model of the immutable box class `Pudelko` from the C# library `PudelkoLibrary`. A box has three dimensions and the unit of measure it was built with.

- **Construction.** The constructor converts each dimension to metres and rounds it to three decimals with `Math.Round`. It then checks that each one lies in (0, 10] m.
- **Derived values.** The box exposes `A`, `B`, `C`, the volume `Objetosc` and the surface area `Pole`.
- **Other operations.** The class also provides:
  - the indexer, the enumerator and the conversions to `double[]` and from `(int, int, int)`;
  - `operator +`;
  - equality on the sorted dimensions, with `==`, `!=` and `GetHashCode`;
  - `ToString` with the format codes "m", "cm" and "mm";
  - the static `Parse`, which reads the text `ToString` writes.

How the model represents the source:

- A stored dimension is a whole number of millimetres (1..10000). That is exactly what `Math.Round(x, 3)` of a valid length in metres is.
- `Math.Round` is round-half-to-even on exact reals.
- Exceptions are `Err` values of a `Result`, and a `null` argument is `None`.
- The .NET pieces the text conversions use are modelled in their own module:
  - `string.Trim` and `string.Split` with `RemoveEmptyEntries`;
  - `string.IsNullOrWhiteSpace`;
  - `double.TryParse` on finite decimal literals;
  - the default text of a `double`.

Modules:

- `Wrappers`: `Option`, `Result`, `Outcome`.
- `Rounding`: `Math.Round`.
- `NetText`: the string and number routines above.
- `PudelkoLibrary`: the box.
  - Construction, metrics, sequence access, the enumerator class, equality and hashing, `+` and the conversions.
  - The in-place `Array.Sort` of the three dimensions is a method on an `array`.
- `PudelkoText`: `ToString`, `Parse` and the round trip between them.
  - `Parse` fills a `double[3]` in a loop.
- `DoubleValidation`: the constructor's range check on IEEE doubles, NaN included (see Findings).

The model follows the code, including where the library's own tests in PudelkoTests/Test1.cs expect something else:

- Omitted dimensions default to 0.1 in the caller's unit.
  - In centimetres the default box is 1 mm on each side.
  - In millimetres the default 0.1 mm rounds to 0, so the constructor throws.
  - The tests at PudelkoTests/Test1.cs:127-147 and 173-193 expect a 0.1 m default in every unit.
- Numbers are written in their shortest form: "2.5 m × 9.321 m × 0.1 m".
  - The tests at PudelkoTests/Test1.cs:423-432 expect three fixed decimals, "2.500 m × 9.321 m × 0.100 m".
- Rounding comes before the range check. 10.0004 m is stored as 10 m and accepted; so is 10.0005 m, whose tie rounds to the even 10.000.
- `Parse` of the text of a box gives back the same dimensions exactly. The unit of the result is always metres.

## Model

| member | source | states |
|---|---|---|
| Rounding.RoundToEven | PudelkoLib/Pudelko.cs:27-29 | the result is within 0.5 of x, and a tie goes to the even integer |
| Rounding.RoundToEvenUnique | PudelkoLib/Pudelko.cs:27-29 | those two properties determine the rounded value: no other integer has them |
| Rounding.Round | PudelkoLib/Pudelko.cs:27-29 | `Math.Round(x, d)` is a whole number of units of 10^-d, within half a unit of x |
| Rounding.RoundExact | PudelkoLib/Pudelko.cs:20-22 | a value already on the 10^-d grid is unchanged by rounding |
| Rounding.RoundOnGrid | PudelkoLib/Pudelko.cs:20-22 | n × 10^-d rounds to itself |
| Rounding.RoundIdempotent | PudelkoLib/Pudelko.cs:20-22 | rounding twice to d decimals equals rounding once, so `A` re-rounding the stored `a` changes nothing |
| NetText.IsNullOrWhiteSpace | PudelkoLib/Pudelko.cs:184 | a string is blank exactly when `Trim` leaves nothing of it |
| NetText.AllWhiteIffTrimmedEmpty | PudelkoLib/Pudelko.cs:184 | a text is all white space exactly when trimming it leaves nothing |
| NetText.Trim | PudelkoLib/Pudelko.cs:196 | the trimmed text is no longer than the input and neither begins nor ends with white space |
| NetText.TrimStartBySuffix | PudelkoLib/Pudelko.cs:196 | trimming the start removes a prefix made only of white space and stops at a non-white character |
| NetText.TrimEndByPrefix | PudelkoLib/Pudelko.cs:196 | trimming the end removes a suffix made only of white space and stops at a non-white character |
| NetText.TrimByEnds | PudelkoLib/Pudelko.cs:196 | a trimmed text neither begins nor ends with white space |
| NetText.TrimPadded | PudelkoLib/Pudelko.cs:196 | trimming white padding around an unpadded text gives that text back |
| NetText.Split | PudelkoLib/Pudelko.cs:187 | splitting always gives at least one piece, the empty text included |
| NetText.SplitJoin | PudelkoLib/Pudelko.cs:187 | no piece of `Split` holds the separator, and joining the pieces with it restores the text |
| NetText.SplitWithoutSeparator | PudelkoLib/Pudelko.cs:187 | a text without the separator splits into itself alone |
| NetText.SplitAtFirst | PudelkoLib/Pudelko.cs:187 | the text before the first separator is the first piece, and the rest splits on its own |
| NetText.RemoveEmpty | PudelkoLib/Pudelko.cs:187 | dropping empty pieces never gives more pieces than there were |
| NetText.RemoveEmptySingle | PudelkoLib/Pudelko.cs:187 | a single piece is kept exactly when it is not empty |
| NetText.RemoveEmptyAppend | PudelkoLib/Pudelko.cs:187 | the kept pieces of a concatenation are the kept pieces of each part, in order; with `RemoveEmptySingle` this fixes the result for every input |
| NetText.RemoveEmptyMembers | PudelkoLib/Pudelko.cs:187 | `RemoveEmptyEntries` keeps exactly the non-empty pieces |
| NetText.RemoveEmptyKeeps | PudelkoLib/Pudelko.cs:197 | pieces that are all non-empty are kept unchanged |
| NetText.Digits | PudelkoLib/Pudelko.cs:76 | the decimal digits of n are non-empty digits whose value is n, with no leading zero unless n is 0, which is "0" |
| NetText.FixedDigits | PudelkoLib/Pudelko.cs:76 | exactly `width` digits whose value is n, leading zeros included |
| NetText.StripTrailingZeros | PudelkoLib/Pudelko.cs:76 | a prefix of the digits that drops only zeros and does not end in '0' |
| NetText.StripTrailingZerosValue | PudelkoLib/Pudelko.cs:76 | dropping trailing zeros keeps the value of the fraction |
| NetText.LeadingDigitsRun | PudelkoLib/Pudelko.cs:201 | the leading run the number reader takes is all digits and maximal |
| NetText.DecimalText | PudelkoLib/Pudelko.cs:76 | the text of n × 10^-scale is digits with at most one '.', starting and ending with a digit, in shortest form: no leading zero before the point other than a lone "0", and no trailing zero after it |
| NetText.DecimalTextValue | PudelkoLib/Pudelko.cs:76 | the integer and fraction digits of that text have the value n × 10^-scale |
| NetText.DecimalTextParses | PudelkoLib/Pudelko.cs:201 | `double.TryParse` reads the text of n × 10^-scale back as n × 10^-scale |
| NetText.TryParseDouble | PudelkoLib/Pudelko.cs:201 | `double.TryParse` with `NumberStyles.Float`: number white space around an optional sign, digits with an optional '.' fraction and an optional exponent; the lemmas below state what it reads |
| NetText.PlainUnsignedParses | PudelkoLib/Pudelko.cs:201 | digits with an optional '.' and fraction are read as the value of those digits |
| NetText.UnsignedUnpadded | PudelkoLib/Pudelko.cs:201 | a text that starts and ends with a digit has no padding or sign for `TryParse` to strip |
| NetText.PlainDecimalParses | PudelkoLib/Pudelko.cs:201 | `digits` or `digits.fraction` is read back as its value |
| NetText.FormatDouble | PudelkoLib/Pudelko.cs:76 | the default text of a non-negative whole number of thousandths is a plain decimal in shortest form: no superfluous leading zero, no trailing zero after the point |
| NetText.TrailingZerosDropped | PudelkoLib/Pudelko.cs:76 | 2500 thousandths is written "2.5", not "2.500" |
| NetText.LeadingZeroKept | PudelkoLib/Pudelko.cs:76 | 100 thousandths is written "0.1" |
| NetText.AllFractionDigits | PudelkoLib/Pudelko.cs:76 | 9321 thousandths is written "9.321" |
| NetText.WholeNumberWithoutPoint | PudelkoLib/Pudelko.cs:84 | 2500000 thousandths is written "2500", without a point |
| NetText.FormatDoubleParses | PudelkoLib/Pudelko.cs:201 | `double.TryParse` reads that text back as the same value |
| PudelkoLibrary.ConvertToMeters | PudelkoLib/Pudelko.cs:34-52 | the length in metres, multiplied by the unit's factor (1, 100 or 1000), is the length given |
| PudelkoLibrary.RoundToMillimetres | PudelkoLib/Pudelko.cs:27-29 | `Math.Round(x, 3)` of a length in metres is a whole number of millimetres within 0.0005 m of x |
| PudelkoLibrary.MillimetresOfExact | PudelkoLib/Pudelko.cs:27-29 | a length that is a whole number n of millimetres is stored as exactly n |
| PudelkoLibrary.MillimetresOfNear | PudelkoLib/Pudelko.cs:27-29 | a length strictly within half a millimetre of n millimetres is stored as n |
| PudelkoLibrary.TieToEven | PudelkoLib/Pudelko.cs:27-29 | a length exactly half a millimetre above an even n millimetres is stored as n |
| PudelkoLibrary.ValidateDimensions | PudelkoLib/Pudelko.cs:54-63 | passes exactly when every dimension is positive and at most 10 m; otherwise fails with `ArgumentOutOfRangeException` |
| PudelkoLibrary.Construct | PudelkoLib/Pudelko.cs:25-33 | succeeds exactly when each dimension, converted to metres and rounded to 3 decimals, lies in (0, 10]; it stores those rounded values and the unit; otherwise `ArgumentOutOfRangeException` |
| PudelkoLibrary.ConstructInMillimetres | PudelkoLib/Pudelko.cs:25-33 | the constructor accepts exactly the inputs whose rounded lengths are 1..10000 mm, and stores those millimetres |
| PudelkoLibrary.ConstructFromStored | PudelkoLib/Pudelko.cs:25-33 | building a box in metres from another box's stored lengths gives the same lengths |
| PudelkoLibrary.New | PudelkoLib/Pudelko.cs:25-33 | assigning the rounded fields and then validating them gives what `Construct` specifies |
| PudelkoLibrary.DefaultsFollowTheUnit | PudelkoLib/Pudelko.cs:25 | the default 0.1 is in the caller's unit: 100 mm sides in metres, 1 mm in centimetres, an exception in millimetres; 2.5 and 9.321 m are kept exactly |
| PudelkoLibrary.RoundingBeforeValidation | PudelkoLib/Pudelko.cs:27-31 | 10.0004 m and the tie 10.0005 m are accepted as 10 m; 10.001 m and 0.0004 m are rejected; 1000.04 cm is accepted as 10 m |
| PudelkoLibrary.A | PudelkoLib/Pudelko.cs:20 | `A` is the stored first length in metres, in (0, 10] |
| PudelkoLibrary.B | PudelkoLib/Pudelko.cs:21 | `B` is the stored second length in metres, in (0, 10] |
| PudelkoLibrary.C | PudelkoLib/Pudelko.cs:22 | `C` is the stored third length in metres, in (0, 10] |
| PudelkoLibrary.Objetosc | PudelkoLib/Pudelko.cs:92 | the volume times 10^9 is exactly a·b·c in cubic millimetres: rounding to 9 decimals loses nothing |
| PudelkoLibrary.Pole | PudelkoLib/Pudelko.cs:93 | the area times 10^6 is exactly 2(ab + bc + ac) in square millimetres: rounding to 6 decimals loses nothing |
| PudelkoLibrary.VolumeBounds | PudelkoLib/Pudelko.cs:92 | every box has volume in (0, 1000] m³ |
| PudelkoLibrary.AreaBounds | PudelkoLib/Pudelko.cs:93 | every box has area in (0, 600] m² |
| PudelkoLibrary.MetricsExamples | PudelkoLib/Pudelko.cs:92-93 | a 1 m cube has volume 1 and area 6; a 0.5 m cube has area 1.5 |
| PudelkoLibrary.MetricsOfArray | PudelkoLib/Pudelko.cs:92-93 | the volume is A·B·C and the area is 2(AB + BC + AC) |
| PudelkoLibrary.EqualBoxesSameMetrics | PudelkoLib/Pudelko.cs:92-107 | boxes that are `Equals` have the same volume and the same area |
| PudelkoLibrary.ToArray | PudelkoLib/Pudelko.cs:145-148 | the array holds the three stored lengths in metres, in order |
| PudelkoLibrary.Index | PudelkoLib/Pudelko.cs:155-168 | succeeds exactly for indices 0, 1 and 2, giving element `index` of `{ A, B, C }`; every other `int` gives `IndexOutOfRangeException` |
| PudelkoLibrary.Enumerator.constructor | PudelkoLib/Pudelko.cs:170-175 | a new enumerator has yielded nothing |
| PudelkoLibrary.Enumerator.MoveNext | PudelkoLib/Pudelko.cs:170-175 | true exactly for the first three calls; the call then makes `Current` the next of `A`, `B`, `C` and extends the values yielded by it; later calls leave `Current`, the position and the values yielded unchanged |
| PudelkoLibrary.GetEnumerator | PudelkoLib/Pudelko.cs:170-180 | returns a fresh enumerator over this box that has yielded nothing |
| PudelkoLibrary.CompareSwap | PudelkoLib/Pudelko.cs:103-104 | one compare-exchange step keeps the values, puts the smaller at i and the larger at j, and changes nothing else |
| PudelkoLibrary.CompareExchange | PudelkoLib/Pudelko.cs:103-104 | the in-place step leaves the array as `CompareSwap` of its old contents |
| PudelkoLibrary.Sort3 | PudelkoLib/Pudelko.cs:103-104 | the sorted dimensions are ascending and a permutation of the input |
| PudelkoLibrary.SortDimensions | PudelkoLib/Pudelko.cs:121 | `Array.Sort` in place leaves the array ascending and a permutation of its old contents |
| PudelkoLibrary.AscendingUnique | PudelkoLib/Pudelko.cs:103-106 | two ascending sequences with the same values are equal, so comparing sorted arrays compares multisets |
| PudelkoLibrary.Equal | PudelkoLib/Pudelko.cs:100-106 | two boxes are equal when their sorted `{ A, B, C }` arrays agree; `EqualIffPermutation` states what this means |
| PudelkoLibrary.EqualIffPermutation | PudelkoLib/Pudelko.cs:96-107 | two boxes are equal exactly when one's dimensions are a rearrangement of the other's |
| PudelkoLibrary.EqualUnderRotation | PudelkoLib/Pudelko.cs:96-107 | equality ignores rotating the dimensions and ignores the unit |
| PudelkoLibrary.EqualUnderSwap | PudelkoLib/Pudelko.cs:96-107 | equality ignores exchanging two dimensions and ignores the unit |
| PudelkoLibrary.EqualIsEquivalence | PudelkoLib/Pudelko.cs:96-107 | equality is reflexive, symmetric and transitive |
| PudelkoLibrary.Equals | PudelkoLib/Pudelko.cs:96-107 | false for null; otherwise true exactly when the sorted `{ A, B, C }` arrays agree |
| PudelkoLibrary.HashCode | PudelkoLib/Pudelko.cs:118-123 | the hash is the combining function applied to the sorted dimensions; `HashRespectsEqual` states what this means |
| PudelkoLibrary.GetHashCode | PudelkoLib/Pudelko.cs:118-123 | the hash is the combining function applied to the sorted dimensions |
| PudelkoLibrary.HashRespectsEqual | PudelkoLib/Pudelko.cs:118-123 | boxes with rearranged dimensions are equal and hash alike, whatever the combining function |
| PudelkoLibrary.OpEquality | PudelkoLib/Pudelko.cs:125-129 | null equals only null, and a box never equals null, from either side; two boxes are equal exactly when one's dimensions are a rearrangement of the other's |
| PudelkoLibrary.OpInequality | PudelkoLib/Pudelko.cs:131-134 | `!=` is exactly the negation of `==` |
| PudelkoLibrary.OpEqualityIsEquivalence | PudelkoLib/Pudelko.cs:125-129 | `==` over boxes and null is reflexive, symmetric and transitive |
| PudelkoLibrary.Add | PudelkoLib/Pudelko.cs:136-143 | succeeds exactly when each position-wise sum is at most 10 m; the result is those sums in metres; otherwise `ArgumentOutOfRangeException` |
| PudelkoLibrary.AddCommutative | PudelkoLib/Pudelko.cs:136-143 | `p1 + p2` equals `p2 + p1`, exceptions included |
| PudelkoLibrary.AddExamples | PudelkoLib/Pudelko.cs:136-143 | 1×2×3 m plus 4×5×6 m is 5×7×9 m in metres, whatever the operands' units; two 6 m sides overflow |
| PudelkoLibrary.AddIgnoresEqual | PudelkoLib/Pudelko.cs:136-143 | `+` pairs `A` with `A`, so adding equal boxes to the same box can give unequal sums |
| PudelkoLibrary.FromTuple | PudelkoLib/Pudelko.cs:150-153 | succeeds exactly when each `int` is 1..10000; the box has those millimetres in metres; otherwise `ArgumentOutOfRangeException` |
| PudelkoLibrary.TupleRoundTrip | PudelkoLib/Pudelko.cs:150-153 | a tuple of valid millimetres converts to a box whose `A`, `B`, `C` give the same millimetres back |
| PudelkoText.UnitOf | PudelkoLib/Pudelko.cs:204-211 | exactly "cm", "mm" and "m" name a unit, and the unit named has that suffix |
| PudelkoText.UnitOfSymbol | PudelkoLib/Pudelko.cs:204-211 | every unit's suffix is read back as that unit |
| PudelkoText.ScaledBack | PudelkoLib/Pudelko.cs:213-218 | dividing a length written in a unit by that unit's factor gives the length in metres back |
| PudelkoText.ScaledOnThousandths | PudelkoLib/Pudelko.cs:76-84 | a stored length written in m, cm or mm is a whole number of thousandths |
| PudelkoText.Number | PudelkoLib/Pudelko.cs:76-84 | the number written for a dimension is a plain decimal in shortest form |
| PudelkoText.NumberIs | PudelkoLib/Pudelko.cs:76-84 | the number written for a dimension is the decimal text of its whole number of thousandths in the chosen unit |
| PudelkoText.NumberParses | PudelkoLib/Pudelko.cs:76-84 | `double.TryParse` reads the written number back as the dimension in the chosen unit |
| PudelkoText.Text | PudelkoLib/Pudelko.cs:76-84 | the three written dimensions, each followed by " " and the unit suffix, joined by " × "; `TextParts` and `ParseText` state what this means |
| PudelkoText.TextIs | PudelkoLib/Pudelko.cs:76-84 | given the numbers written for the three dimensions, the text is "x u × y u × z u" for the unit suffix u |
| PudelkoText.ToString | PudelkoLib/Pudelko.cs:70-90 | succeeds exactly for null, "", "m", "cm" and "mm"; the text is the box written in the unit with that suffix, "m" for null and ""; any other code gives `FormatException` |
| PudelkoText.ToStringExamples | PudelkoLib/Pudelko.cs:70-76 | a 2.5 m × 9.321 m × 0.1 m box is written "2.5 m × 9.321 m × 0.1 m" |
| PudelkoText.MillimetresExample | PudelkoLib/Pudelko.cs:82-85 | 2.5 m is written "2500" in millimetres |
| PudelkoText.ToStringDefault | PudelkoLib/Pudelko.cs:65-68 | `ToString()` is `ToString("m")`, which is also the text for a null format |
| PudelkoText.ParseDimension | PudelkoLib/Pudelko.cs:196-220 | reading one part fails only with `FormatException` |
| PudelkoText.ParseDimensionReads | PudelkoLib/Pudelko.cs:196-218 | a part with exactly two tokens, a number and a unit suffix, reads as that number converted to metres |
| PudelkoText.ParseDimensionRejects | PudelkoLib/Pudelko.cs:196-211 | a part without two tokens, or with an unreadable number or unit, is a `FormatException` |
| PudelkoText.ParseAll | PudelkoLib/Pudelko.cs:194-222 | reading the parts succeeds exactly when every part reads; the values are the parts' values, in order |
| PudelkoText.ParseAllStep | PudelkoLib/Pudelko.cs:194-222 | reading part i extends the values read so far by that part's value |
| PudelkoText.ParseAllStops | PudelkoLib/Pudelko.cs:194-222 | one unreadable part makes the whole reading fail |
| PudelkoText.ParseAllThree | PudelkoLib/Pudelko.cs:194-222 | three readable parts give their three values |
| PudelkoText.ReadDimension | PudelkoLib/Pudelko.cs:196-220 | the loop body (trim, split on spaces, parse, read the suffix, divide) gives what `ParseDimension` specifies |
| PudelkoText.ReadParts | PudelkoLib/Pudelko.cs:191-222 | the loop fills the array with the parts' values exactly when every part reads |
| PudelkoText.Parsed | PudelkoLib/Pudelko.cs:182-225 | null or blank input gives `ArgumentNullException` and nothing else does; a count of parts other than 3 gives `FormatException`; three parts of which one cannot be read give `FormatException`; three readable parts give what the constructor gives for their values in metres, so "11 m × 1 m × 1 m" is an `ArgumentOutOfRangeException`; a parsed box is in metres |
| PudelkoText.Parse | PudelkoLib/Pudelko.cs:182-225 | the method with its loop over a `double[3]` returns what `Parsed` specifies |
| PudelkoText.SymbolIsWord | PudelkoLib/Pudelko.cs:76-84 | a unit suffix is a non-empty word without spaces or trailing white space |
| PudelkoText.SegmentTokens | PudelkoLib/Pudelko.cs:196-197 | a written dimension, padded by at most one space on each side, has exactly the number and the suffix as its tokens |
| PudelkoText.SegmentWithoutTimes | PudelkoLib/Pudelko.cs:76-84 | a written dimension contains no '×' |
| PudelkoText.SplitText | PudelkoLib/Pudelko.cs:187 | three pieces without '×', joined by " × ", split back into those pieces with their spaces |
| PudelkoText.RemoveEmptyKeepsThree | PudelkoLib/Pudelko.cs:187 | three non-empty parts all survive `RemoveEmptyEntries` |
| PudelkoText.SegmentParses | PudelkoLib/Pudelko.cs:196-220 | a padded written dimension in any unit reads back as the dimension in metres |
| PudelkoText.TextParts | PudelkoLib/Pudelko.cs:187-188 | the text of a box splits into exactly its three written dimensions |
| PudelkoText.StartsWithNumber | PudelkoLib/Pudelko.cs:184-185 | a text starting with a written number is not blank |
| PudelkoText.TextNotBlank | PudelkoLib/Pudelko.cs:184-185 | the text of a box is never blank, so `Parse` does not throw `ArgumentNullException` on it |
| PudelkoText.TextPartsParse | PudelkoLib/Pudelko.cs:194-222 | the three written dimensions read back as the box's lengths in metres |
| PudelkoText.ParseText | PudelkoLib/Pudelko.cs:182-225 | `Parse` reads the text of a box in any unit back as a box with the same dimensions, in metres |
| PudelkoText.ToStringParseRoundTrip | PudelkoLib/Pudelko.cs:182-225 | for every format `ToString` accepts, `Parse` of its text gives back the same dimensions, and that box `Equals` the original |
| DoubleValidation.ToMeters | PudelkoLib/Pudelko.cs:34-52 | unit conversion on doubles keeps finite values finite and NaN as NaN |
| DoubleValidation.RoundThousandths | PudelkoLib/Pudelko.cs:27-29 | `Math.Round(d, 3)` keeps finite values finite and NaN as NaN |
| DoubleValidation.PassesAsWritten | PudelkoLib/Pudelko.cs:58 | the guard as written lets a length through exactly when it is NaN or finite with its rounded value in metres in (0, 10] |
| DoubleValidation.ConstructAsWritten | PudelkoLib/Pudelko.cs:25-33 | the constructor with the guard as written succeeds exactly when every length is NaN or finite with its rounded value in metres in (0, 10]; it then stores NaN for NaN and the rounded value otherwise; else `ArgumentOutOfRangeException` |
| DoubleValidation.NaNPassesAsWritten | PudelkoLib/Pudelko.cs:58 | the guard as written does not reject NaN, so `new Pudelko(double.NaN, 1, 1)` is accepted with a NaN side |
| DoubleValidation.ConstructCorrected | PudelkoLib/Pudelko.cs:54-63 | with the corrected guard, the constructor succeeds exactly when the three lengths are finite and `PudelkoLibrary.Construct` succeeds on them, and it stores the lengths `Construct` keeps; else `ArgumentOutOfRangeException` |
| DoubleValidation.AcceptedExactly | PudelkoLib/Pudelko.cs:58 | the corrected guard accepts exactly finite lengths in (0, 10] |
| DoubleValidation.GuardsDifferOnlyOnNaN | PudelkoLib/Pudelko.cs:58 | the guard as written and the corrected guard disagree on NaN and on nothing else |
| DoubleValidation.CorrectedRejectsNaN | PudelkoLib/Pudelko.cs:58 | with the corrected guard, a NaN dimension gives `ArgumentOutOfRangeException` |

## Left out

- PudelkoConsoleApp/Program.cs and PudelkoConsoleApp/Kompresuj.cs are not part of this model. They are a console demonstration and a cube root in floating point.
- PudelkoTests/Test1.cs is not part of this model.
  - Its own `Parse` copy is not modelled either.
  - A few of its data rows appear as example lemmas: `DefaultsFollowTheUnit`, `RoundingBeforeValidation`, `MetricsExamples` and `AddExamples`.
- Binary floating point is not modelled.
  - Lengths are exact reals, so `9.321 * 100` is exactly 932.1.
  - Printing artefacts such as "932.0999999999999" do not arise.
  - Only `DoubleValidation` models NaN and the infinities.
- The culture is not modelled. `ToString` ignores `formatProvider`, and numbers are written and read with '.' as the decimal separator.
- NetText.TryParseDouble reads only finite decimal literals: optional white space, an optional sign, digits with an optional fraction, and an optional exponent. It does not read:
  - the symbols "NaN", "Infinity" and "∞";
  - thousands separators or hexadecimal;
  - values that overflow to infinity.
  - Because of this, `Parse("NaN m × 1 m × 1 m")` is not covered. The real `TryParse` would accept that text, and the NaN guard finding would then apply to it.
- PudelkoLibrary.HashCode takes `HashCode.Combine` as a function parameter. Its concrete, per-process randomised values are not modelled.
- The "invalid unit" branches at PudelkoLib/Pudelko.cs:48-51 and 219-220 are unreachable. `UnitOfMeasure` has exactly three values; its declaring file is not part of this model.
- `Equals(object)` (PudelkoLib/Pudelko.cs:109-116) is covered only through `PudelkoLibrary.Equals` on a box or null. The model has no `object` type, so the case of an argument of another type is not modelled.
- The non-generic `IEnumerable.GetEnumerator` returns the same enumerator as the generic one.
- The enumerator's `Reset` and `Dispose` are not modelled.
- `Array.Sort` is modelled only for the three-element arrays the class sorts, as a three-step compare-exchange network. Its contract, ascending and a permutation, is what `Array.Sort` promises.
- Exception messages and parameter names are not modelled; only the exception type is.
- PudelkoText.ParseDimension's own contract states only that its error is `FormatException`. The values it reads and the parts it rejects are stated by `ParseDimensionReads` and `ParseDimensionRejects`.
- PudelkoText.Number's own contract states only that the text is a plain decimal in shortest form. Its value is stated by `NumberParses` and `NumberIs`.
- NetText.Split's own contract states only that there is at least one piece. `SplitJoin`, `SplitWithoutSeparator` and `SplitAtFirst` state the pieces.
- NetText.RemoveEmpty's own contract states only that no pieces are added. `RemoveEmptySingle` and `RemoveEmptyAppend` state the result.
- NetText.TryParseDouble has no contract of its own. The values it reads are stated by `PlainUnsignedParses`, `PlainDecimalParses` and `DecimalTextParses`.
- PudelkoText.Text, PudelkoLibrary.Equal and PudelkoLibrary.HashCode have no contract of their own. What they mean is stated by the lemmas their rows name.

## Findings

| source | as written | input that shows it | evidently intended | confidence | as-written member | corrected member |
|---|---|---|---|---|---|---|
| PudelkoLib/Pudelko.cs:58 | the guard, `dimension <= 0` or `dimension > MaxDimension`, is false for NaN, because every comparison with NaN is false, so a NaN length is stored | `new Pudelko(double.NaN, 1, 1)` | reject every length that is not in (0, 10], NaN included: `!(dimension > 0 && dimension <= MaxDimension)` | not executed | DoubleValidation.NaNPassesAsWritten | DoubleValidation.AcceptedExactly |
