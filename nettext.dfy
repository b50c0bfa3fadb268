/**
 * The pieces of the .NET base library that the box's text conversions rely on:
 * `char.IsWhiteSpace`, `string.IsNullOrWhiteSpace`, `string.Trim`, `string.Split`
 * with and without `StringSplitOptions.RemoveEmptyEntries`, `double.TryParse`
 * with `NumberStyles.Float` and the invariant culture, and the default text of a
 * `double` whose value is a whole number of thousandths.
 */
module NetText {
  import opened Wrappers
  import opened Rounding

  // ---------------------------------------------------------------- white space

  /** `char.IsWhiteSpace`: the Unicode categories Zs, Zl and Zp, U+0009..U+000D and U+0085. */
  predicate IsWhiteSpace(ch: char) {
    ch == ' ' || '\t' <= ch <= '\r' || ch == '\U{0085}' || ch == '\U{00A0}' || ch == '\U{1680}'
    || '\U{2000}' <= ch <= '\U{200A}' || ch == '\U{2028}' || ch == '\U{2029}' || ch == '\U{202F}'
    || ch == '\U{205F}' || ch == '\U{3000}'
  }

  /** `string.IsNullOrWhiteSpace`: null, empty, or white space only; for a string, exactly when `Trim` leaves nothing. */
  function IsNullOrWhiteSpace(s: Option<string>): (blank: bool)
    ensures s.Some? ==> (blank <==> Trim(s.value) == [])
  {
    if s.None? then true
    else
      AllWhiteIffTrimmedEmpty(s.value);
      forall i :: 0 <= i < |s.value| ==> IsWhiteSpace(s.value[i])
  }

  /** The two kinds of white space trimmed: `string.Trim`'s and the one `double.TryParse` allows around a number. */
  datatype WhiteKind = AnyWhiteSpace | NumberWhite

  predicate IsWhite(kind: WhiteKind, ch: char) {
    match kind
    case AnyWhiteSpace => IsWhiteSpace(ch)
    case NumberWhite => IsNumberWhite(ch)
  }

  /** `s` with its leading white space of `kind` removed. */
  function TrimStartBy(s: string, kind: WhiteKind): (r: string)
    ensures |r| <= |s|
  {
    if s != [] && IsWhite(kind, s[0]) then TrimStartBy(s[1..], kind) else s
  }

  /** Trimming the start drops a prefix of white space and stops at a character that is not white. */
  lemma {:induction false} TrimStartBySuffix(s: string, kind: WhiteKind)
    ensures var r := TrimStartBy(s, kind);
      r == s[|s| - |r|..]
      && (forall i :: 0 <= i < |s| - |r| ==> IsWhite(kind, s[i]))
      && (r != [] ==> !IsWhite(kind, r[0]))
  {
    if s != [] && IsWhite(kind, s[0]) {
      TrimStartBySuffix(s[1..], kind);
    }
  }

  /** `s` with its trailing white space of `kind` removed. */
  function TrimEndBy(s: string, kind: WhiteKind): (r: string)
    ensures |r| <= |s|
  {
    if s != [] && IsWhite(kind, s[|s| - 1]) then TrimEndBy(s[..|s| - 1], kind) else s
  }

  /** Trimming the end drops a suffix of white space and stops at a character that is not white. */
  lemma {:induction false} TrimEndByPrefix(s: string, kind: WhiteKind)
    ensures var r := TrimEndBy(s, kind);
      r == s[..|r|]
      && (forall i :: |r| <= i < |s| ==> IsWhite(kind, s[i]))
      && (r != [] ==> !IsWhite(kind, r[|r| - 1]))
  {
    if s != [] && IsWhite(kind, s[|s| - 1]) {
      TrimEndByPrefix(s[..|s| - 1], kind);
    }
  }

  /** `s` without white space of `kind` at either end. */
  function TrimBy(s: string, kind: WhiteKind): (r: string)
    ensures |r| <= |s|
  {
    TrimEndBy(TrimStartBy(s, kind), kind)
  }

  /** A trimmed text neither begins nor ends with white space. */
  lemma TrimByEnds(s: string, kind: WhiteKind)
    ensures var r := TrimBy(s, kind);
      r != [] ==> !IsWhite(kind, r[0]) && !IsWhite(kind, r[|r| - 1])
  {
    var t := TrimStartBy(s, kind);
    TrimStartBySuffix(s, kind);
    TrimEndByPrefix(t, kind);
    var r := TrimEndBy(t, kind);
    if r != [] {
      assert r[0] == t[0];
    }
  }

  /** `string.Trim()`: a part of `s` that neither begins nor ends with white space. */
  function Trim(s: string): (t: string)
    ensures |t| <= |s|
    ensures t != [] ==> !IsWhiteSpace(t[0]) && !IsWhiteSpace(t[|t| - 1])
  {
    TrimByEnds(s, AnyWhiteSpace);
    TrimBy(s, AnyWhiteSpace)
  }

  /** A text is all white space exactly when trimming it leaves nothing. */
  lemma AllWhiteIffTrimmedEmpty(s: string)
    ensures (forall i :: 0 <= i < |s| ==> IsWhiteSpace(s[i])) <==> TrimBy(s, AnyWhiteSpace) == []
  {
    var t := TrimStartBy(s, AnyWhiteSpace);
    TrimStartBySuffix(s, AnyWhiteSpace);
    TrimEndByPrefix(t, AnyWhiteSpace);
    if !(forall i :: 0 <= i < |s| ==> IsWhiteSpace(s[i])) {
      var k :| 0 <= k < |s| && !IsWhiteSpace(s[k]);
      assert s[k] == t[k - (|s| - |t|)];
    }
  }

  /** Leading padding is removed up to the first character that is not white. */
  lemma {:induction false} TrimStartPadded(left: string, x: string, kind: WhiteKind)
    requires forall i :: 0 <= i < |left| ==> IsWhite(kind, left[i])
    requires x != [] && !IsWhite(kind, x[0])
    ensures TrimStartBy(left + x, kind) == x
  {
    if left != [] {
      assert (left + x)[1..] == left[1..] + x;
      TrimStartPadded(left[1..], x, kind);
    }
  }

  /** Trailing padding is removed back to the last character that is not white. */
  lemma {:induction false} TrimEndPadded(x: string, right: string, kind: WhiteKind)
    requires forall i :: 0 <= i < |right| ==> IsWhite(kind, right[i])
    requires x != [] && !IsWhite(kind, x[|x| - 1])
    ensures TrimEndBy(x + right, kind) == x
  {
    if right != [] {
      assert (x + right)[..|x + right| - 1] == x + right[..|right| - 1];
      TrimEndPadded(x, right[..|right| - 1], kind);
    }
  }

  /** Trimming removes exactly the padding around a text that does not itself begin or end with white space. */
  lemma TrimPadded(left: string, x: string, right: string, kind: WhiteKind)
    requires forall i :: 0 <= i < |left| ==> IsWhite(kind, left[i])
    requires forall i :: 0 <= i < |right| ==> IsWhite(kind, right[i])
    requires x != [] && !IsWhite(kind, x[0]) && !IsWhite(kind, x[|x| - 1])
    ensures TrimBy(left + x + right, kind) == x
  {
    assert left + x + right == left + (x + right);
    TrimStartPadded(left, x + right, kind);
    TrimEndPadded(x, right, kind);
  }

  // ---------------------------------------------------------------- splitting

  /** The pieces of a split, put back together with the separator between them. */
  function Join(parts: seq<string>, separator: char): string
    requires |parts| >= 1
  {
    if |parts| == 1 then parts[0] else parts[0] + [separator] + Join(parts[1..], separator)
  }

  /** `s.Split(separator)`: the pieces of `s` between occurrences of `separator`, empty pieces included. */
  function Split(s: string, separator: char): (parts: seq<string>)
    ensures |parts| >= 1
  {
    if s == [] then [[]]
    else
      var rest := Split(s[1..], separator);
      if s[0] == separator then [[]] + rest
      else [[s[0]] + rest[0]] + rest[1..]
  }

  /** No piece holds the separator, and joining the pieces with it gives the text back. */
  lemma {:induction false} SplitJoin(s: string, separator: char)
    ensures forall i :: 0 <= i < |Split(s, separator)| ==> separator !in Split(s, separator)[i]
    ensures Join(Split(s, separator), separator) == s
  {
    if s != [] {
      var rest := Split(s[1..], separator);
      SplitJoin(s[1..], separator);
      if s[0] == separator {
        assert Join([[]] + rest, separator) == [separator] + Join(rest, separator);
      } else {
        var parts := [[s[0]] + rest[0]] + rest[1..];
        assert |rest| > 1 ==> rest[1..] == parts[1..];
        assert Join(parts, separator) == [s[0]] + Join(rest, separator);
      }
      assert s == [s[0]] + s[1..];
    }
  }

  /** A text without the separator is a single piece. */
  lemma {:induction false} SplitWithoutSeparator(x: string, separator: char)
    requires separator !in x
    ensures Split(x, separator) == [x]
  {
    if x != [] {
      SplitWithoutSeparator(x[1..], separator);
      assert [x[0]] + x[1..] == x;
    }
  }

  /** Splitting at the first separator: the text before it is the first piece. */
  lemma {:induction false} SplitAtFirst(x: string, y: string, separator: char)
    requires separator !in x
    ensures Split(x + [separator] + y, separator) == [x] + Split(y, separator)
  {
    var s := x + [separator] + y;
    if x == [] {
      assert s[1..] == y;
    } else {
      assert s[1..] == x[1..] + [separator] + y;
      SplitAtFirst(x[1..], y, separator);
      assert [x[0]] + x[1..] == x;
    }
  }

  /** `StringSplitOptions.RemoveEmptyEntries`: the pieces that are not empty, in their order. */
  function RemoveEmpty(parts: seq<string>): (r: seq<string>)
    ensures |r| <= |parts|
  {
    if parts == [] then []
    else (if parts[0] == [] then [] else [parts[0]]) + RemoveEmpty(parts[1..])
  }

  /** The pieces kept are exactly the non-empty ones. */
  lemma {:induction false} RemoveEmptyMembers(parts: seq<string>)
    ensures forall x :: x in RemoveEmpty(parts) <==> x in parts && x != []
  {
    if parts != [] {
      RemoveEmptyMembers(parts[1..]);
      assert parts == [parts[0]] + parts[1..];
    }
  }

  /** A single piece is kept exactly when it is not empty. */
  lemma RemoveEmptySingle(x: string)
    ensures RemoveEmpty([x]) == if x == [] then [] else [x]
  {
  }

  /**
   * The result for a concatenation is the concatenation of the results. With `RemoveEmptySingle`
   * this fixes `RemoveEmpty` on every sequence: the kept pieces are the non-empty ones, in order.
   */
  lemma {:induction false} RemoveEmptyAppend(a: seq<string>, b: seq<string>)
    ensures RemoveEmpty(a + b) == RemoveEmpty(a) + RemoveEmpty(b)
  {
    if a == [] {
      assert a + b == b;
    } else {
      var kept := if a[0] == [] then [] else [a[0]];
      assert (a + b)[0] == a[0] && (a + b)[1..] == a[1..] + b;
      RemoveEmptyAppend(a[1..], b);
      calc {
        RemoveEmpty(a + b);
        kept + RemoveEmpty(a[1..] + b);
        kept + (RemoveEmpty(a[1..]) + RemoveEmpty(b));
        (kept + RemoveEmpty(a[1..])) + RemoveEmpty(b);
        RemoveEmpty(a) + RemoveEmpty(b);
      }
    }
  }

  /** Pieces that are all non-empty are kept as they are. */
  lemma {:induction false} RemoveEmptyKeeps(parts: seq<string>)
    requires forall i :: 0 <= i < |parts| ==> parts[i] != []
    ensures RemoveEmpty(parts) == parts
  {
    if parts != [] {
      RemoveEmptyKeeps(parts[1..]);
    }
  }

  // ---------------------------------------------------------------- decimal digits

  predicate IsDigit(ch: char) {
    '0' <= ch <= '9'
  }

  predicate AllDigits(s: string) {
    forall i :: 0 <= i < |s| ==> IsDigit(s[i])
  }

  /** The character of a decimal digit. */
  function DigitChar(d: nat): (ch: char)
    requires d < 10
    ensures IsDigit(ch)
  {
    (d + '0' as int) as char
  }

  /** The value of a string of decimal digits, most significant first. */
  function DigitsValue(s: string): nat
    requires AllDigits(s)
  {
    if s == [] then 0 else 10 * DigitsValue(s[..|s| - 1]) + (s[|s| - 1] as int - '0' as int)
  }

  /** The number of decimal digits `s` starts with. */
  function LeadingDigits(s: string): (n: nat)
    ensures n <= |s|
  {
    if s != [] && IsDigit(s[0]) then 1 + LeadingDigits(s[1..]) else 0
  }

  /** `LeadingDigits` counts the longest run of digits at the start. */
  lemma {:induction false} LeadingDigitsRun(s: string)
    ensures AllDigits(s[..LeadingDigits(s)])
    ensures LeadingDigits(s) < |s| ==> !IsDigit(s[LeadingDigits(s)])
  {
    if s != [] && IsDigit(s[0]) {
      LeadingDigitsRun(s[1..]);
      assert s[..LeadingDigits(s)] == [s[0]] + s[1..][..LeadingDigits(s[1..])];
    }
  }

  /** The decimal digits of `n`, without leading zeros ("0" for zero). */
  function Digits(n: nat): (s: string)
    ensures s != [] && AllDigits(s)
    ensures DigitsValue(s) == n
    ensures n == 0 ==> s == "0"
    ensures n > 0 ==> s[0] != '0'
  {
    if n < 10 then [DigitChar(n)]
    else
      var s := Digits(n / 10) + [DigitChar(n % 10)];
      assert s[..|s| - 1] == Digits(n / 10);
      s
  }

  /** The `width` low decimal digits of `n`, leading zeros included. */
  function FixedDigits(n: nat, width: nat): (s: string)
    requires n < Pow10(width)
    ensures |s| == width && AllDigits(s)
    ensures DigitsValue(s) == n
  {
    if width == 0 then []
    else
      var s := FixedDigits(n / 10, width - 1) + [DigitChar(n % 10)];
      assert s[..|s| - 1] == FixedDigits(n / 10, width - 1);
      s
  }

  /** `s` without its trailing zeros. */
  function StripTrailingZeros(s: string): (r: string)
    ensures |r| <= |s| && r == s[..|r|]
    ensures forall i :: |r| <= i < |s| ==> s[i] == '0'
    ensures r != [] ==> r[|r| - 1] != '0'
  {
    if s != [] && s[|s| - 1] == '0' then StripTrailingZeros(s[..|s| - 1]) else s
  }

  /** Trailing zeros of a fraction's digits do not change the fraction's value. */
  lemma {:induction false} StripTrailingZerosValue(s: string)
    requires AllDigits(s)
    ensures DigitsValue(StripTrailingZeros(s)) as real / Scale(|StripTrailingZeros(s)|)
         == DigitsValue(s) as real / Scale(|s|)
  {
    if s != [] && s[|s| - 1] == '0' {
      var t := s[..|s| - 1];
      StripTrailingZerosValue(t);
      assert DigitsValue(s) == 10 * DigitsValue(t);
      assert Scale(|s|) == 10.0 * Scale(|t|);
      FractionScaled(DigitsValue(t) as real, Scale(|t|), 10.0);
    }
  }

  /** (10x) / (10y) is x / y; stated over plain parameters so that the solver can use it. */
  lemma FractionScaled(x: real, y: real, k: real)
    requires y > 0.0 && k > 0.0
    ensures (k * x) / (k * y) == x / y
  {
  }

  // ---------------------------------------------------------------- numbers

  /** The white space `NumberStyles.AllowLeadingWhite` and `AllowTrailingWhite` admit: U+0009..U+000D and U+0020. */
  predicate IsNumberWhite(ch: char) {
    ch == ' ' || '\t' <= ch <= '\r'
  }

  /** The value of `integral.fraction`. */
  function Mantissa(integral: string, fraction: string): real
    requires AllDigits(integral) && AllDigits(fraction)
  {
    DigitsValue(integral) as real + DigitsValue(fraction) as real / Scale(|fraction|)
  }

  /** m × 10^exponent. */
  function TimesPow10(m: real, exponent: int): real {
    if exponent >= 0 then m * Scale(exponent) else m / Scale(-exponent)
  }

  /** The exponent part `(e|E)[sign]digits` of a number, or 0 when there is none; `None` when the text is anything else. */
  function TryParseExponent(s: string): Option<int> {
    if s == [] then Some(0)
    else if s[0] != 'e' && s[0] != 'E' then None
    else
      var u := s[1..];
      var digits := if u != [] && (u[0] == '+' || u[0] == '-') then u[1..] else u;
      if digits != [] && AllDigits(digits) then
        var magnitude: int := DigitsValue(digits);
        Some(if u[0] == '-' then -magnitude else magnitude)
      else None
  }

  /** integral digits, fraction digits and what follows them: at least one digit, then an optional exponent. */
  function TryParseMantissa(integral: string, fraction: string, tail: string): Option<real>
    requires AllDigits(integral) && AllDigits(fraction)
  {
    if integral == [] && fraction == [] then None
    else match TryParseExponent(tail)
      case None => None
      case Some(e) => Some(TimesPow10(Mantissa(integral, fraction), e))
  }

  /** A number without its sign: integral digits, then an optional '.' and fraction digits, then the rest. */
  function TryParseUnsigned(u: string): Option<real> {
    LeadingDigitsRun(u);
    var integral := u[..LeadingDigits(u)];
    var rest := u[LeadingDigits(u)..];
    var point := rest != [] && rest[0] == '.';
    var afterPoint := if point then rest[1..] else [];
    LeadingDigitsRun(afterPoint);
    var fraction := afterPoint[..LeadingDigits(afterPoint)];
    var tail := if point then afterPoint[LeadingDigits(afterPoint)..] else rest;
    TryParseMantissa(integral, fraction, tail)
  }

  /**
   * `double.TryParse(s, NumberStyles.Float, CultureInfo.InvariantCulture, out value)`
   * on finite decimal literals: optional white space, an optional sign, digits with an
   * optional '.' and fraction digits (at least one digit in all), an optional exponent,
   * optional white space.
   */
  function TryParseDouble(s: string): Option<real> {
    var t := TrimBy(s, NumberWhite);
    var signed := t != [] && (t[0] == '-' || t[0] == '+');
    match TryParseUnsigned(if signed then t[1..] else t)
    case None => None
    case Some(v) => Some(if t[0] == '-' then -v else v)
  }

  // ---------------------------------------------------------------- formatting

  /** A literal `double.TryParse` reads back: digits with at most one '.', starting and ending with a digit. */
  predicate IsPlainDecimal(s: string) {
    s != [] && IsDigit(s[0]) && IsDigit(s[|s| - 1])
    && forall i :: 0 <= i < |s| ==> IsDigit(s[i]) || s[i] == '.'
  }

  /**
   * The shortest way to write a plain decimal: no leading zero before the point
   * (other than a lone "0"), at most one point, and no trailing zero after it.
   */
  predicate IsShortest(s: string) {
    (|s| > 1 && s[0] == '0' ==> s[1] == '.')
    && (forall i, j :: 0 <= i < j < |s| && s[i] == '.' ==> s[j] != '.')
    && ('.' in s ==> s[|s| - 1] != '0')
  }

  /** The number of leading digits of a run of digits followed by something that is not a digit. */
  lemma {:induction false} LeadingDigitsOfRun(digits: string, rest: string)
    requires AllDigits(digits)
    requires rest == [] || !IsDigit(rest[0])
    ensures LeadingDigits(digits + rest) == |digits|
  {
    if digits != [] {
      assert (digits + rest)[1..] == digits[1..] + rest;
      LeadingDigitsOfRun(digits[1..], rest);
    }
  }

  /** `digits.fraction` without sign, white space or exponent reads back as its value. */
  lemma PlainUnsignedParses(digits: string, fraction: string)
    requires digits != [] && AllDigits(digits) && AllDigits(fraction)
    ensures TryParseUnsigned(digits + (if fraction == [] then "" else "." + fraction))
         == Some(Mantissa(digits, fraction))
  {
    var tailText: string := if fraction == [] then "" else "." + fraction;
    var s := digits + tailText;
    LeadingDigitsOfRun(digits, tailText);
    assert s[..|digits|] == digits;
    assert s[|digits|..] == tailText;
    if fraction != [] {
      var afterPoint := tailText[1..];
      assert afterPoint == fraction + [];
      LeadingDigitsOfRun(fraction, []);
      assert afterPoint[..|fraction|] == fraction;
      assert afterPoint[|fraction|..] == [];
    }
    assert TimesPow10(Mantissa(digits, fraction), 0) == Mantissa(digits, fraction);
  }

  /** A text that starts with a digit and ends with one has neither padding nor sign to strip. */
  lemma UnsignedUnpadded(s: string)
    requires s != [] && IsDigit(s[0]) && IsDigit(s[|s| - 1])
    ensures TryParseDouble(s) == TryParseUnsigned(s)
  {
    assert !IsNumberWhite(s[0]) && !IsNumberWhite(s[|s| - 1]);
    TrimPadded([], s, [], NumberWhite);
    assert [] + s + [] == s;
    assert TrimBy(s, NumberWhite) == s;
    assert s[0] != '-' && s[0] != '+';
  }

  /** `digits` or `digits.fraction` reads back as the value of its digits. */
  lemma PlainDecimalParses(digits: string, fraction: string)
    requires digits != [] && AllDigits(digits) && AllDigits(fraction)
    requires fraction != [] ==> IsDigit(fraction[|fraction| - 1])
    ensures TryParseDouble(digits + (if fraction == [] then "" else "." + fraction))
         == Some(Mantissa(digits, fraction))
  {
    var s := digits + (if fraction == [] then "" else "." + fraction);
    assert s[0] == digits[0];
    assert s[|s| - 1] == if fraction == [] then digits[|digits| - 1] else fraction[|fraction| - 1];
    UnsignedUnpadded(s);
    PlainUnsignedParses(digits, fraction);
  }

  /** The digits after the point in the text of n × 10^-scale. */
  function FractionText(n: nat, scale: nat): (s: string)
    ensures AllDigits(s)
    ensures s != [] ==> IsDigit(s[|s| - 1]) && s[|s| - 1] != '0'
  {
    var fixed := FixedDigits(n % Pow10(scale), scale);
    var s := StripTrailingZeros(fixed);
    assert s == fixed[..|s|];
    s
  }

  /**
   * The shortest decimal text of n × 10^-scale: the integer digits, then, unless the
   * fraction is zero, a '.' and the fraction's digits without trailing zeros.
   */
  function DecimalText(n: nat, scale: nat): (s: string)
    ensures IsPlainDecimal(s) && IsShortest(s)
  {
    DivMod(n, Pow10(scale));
    var digits := Digits(n / Pow10(scale));
    var fraction := FractionText(n, scale);
    if fraction == [] then digits
    else
      var s := digits + "." + fraction;
      assert s[|s| - 1] == fraction[|fraction| - 1];
      s
  }

  /** The text of n × 10^-scale, as its integer digits and its fraction digits. */
  lemma {:induction false} DecimalTextParts(n: nat, scale: nat)
    ensures var fraction := FractionText(n, scale);
      n / Pow10(scale) >= 0
      && DecimalText(n, scale) == Digits(n / Pow10(scale)) + (if fraction == [] then "" else "." + fraction)
  {
    DivMod(n, Pow10(scale));
  }

  /** The value of those digits is n × 10^-scale. */
  lemma {:induction false} DecimalTextValue(n: nat, scale: nat)
    ensures n / Pow10(scale) >= 0
    ensures Mantissa(Digits(n / Pow10(scale)), FractionText(n, scale)) == n as real / Scale(scale)
  {
    var p := Pow10(scale);
    DivMod(n, p);
    var q, r := n / p, n % p;
    var fixed := FixedDigits(r, scale);
    StripTrailingZerosValue(fixed);
    SameQuotient(DigitsValue(fixed) as real, Scale(|fixed|), r as real, Scale(scale));
    SplitQuotient(n, Scale(scale), q, r);
  }

  /** Reading back the text of n × 10^-scale gives n × 10^-scale. */
  lemma {:induction false} DecimalTextParses(n: nat, scale: nat)
    ensures TryParseDouble(DecimalText(n, scale)) == Some(n as real / Scale(scale))
  {
    DivMod(n, Pow10(scale));
    DecimalTextParts(n, scale);
    PlainDecimalParses(Digits(n / Pow10(scale)), FractionText(n, scale));
    DecimalTextValue(n, scale);
  }

  /** Quotient and remainder of a natural number by a positive one. */
  lemma DivMod(n: nat, p: nat)
    requires p >= 1
    ensures n / p >= 0 && 0 <= n % p < p && n == n / p * p + n % p
  {
  }

  /** Equal numerators over equal denominators; stated over plain parameters so that the solver can use it. */
  lemma SameQuotient(x: real, y: real, x': real, y': real)
    requires x == x' && y == y' && y != 0.0
    ensures x / y == x' / y'
  {
  }

  /** n / p = q + r / p for the quotient and remainder of n by p. */
  lemma SplitQuotient(n: nat, p: real, q: nat, r: nat)
    requires p >= 1.0 && p.Floor as real == p && q == n / p.Floor && r == n % p.Floor
    ensures q as real + r as real / p == n as real / p
  {
    assert n == q * p.Floor + r;
  }

  /**
   * The default text of a non-negative `double` that is a whole number of thousandths,
   * in the invariant culture ("2.5", "932.1", "10").
   */
  function FormatDouble(x: real): (s: string)
    requires x >= 0.0 && (x * 1000.0).Floor as real == x * 1000.0
    ensures IsPlainDecimal(s) && IsShortest(s)
  {
    DecimalText((x * 1000.0).Floor, 3)
  }

  /** `double.TryParse` reads the default text of such a value back as the same value. */
  lemma FormatDoubleParses(x: real)
    requires x >= 0.0 && (x * 1000.0).Floor as real == x * 1000.0
    ensures TryParseDouble(FormatDouble(x)) == Some(x)
  {
    DecimalThousandthsParse((x * 1000.0).Floor, x);
  }

  /** The text of n thousandths reads back as the value x that is n thousandths. */
  lemma DecimalThousandthsParse(n: nat, x: real)
    requires x * 1000.0 == n as real
    ensures TryParseDouble(DecimalText(n, 3)) == Some(x)
  {
    Thousandths(x, n, Scale(3));
    DecimalTextParses(n, 3);
  }

  /** x is n thousandths: n / 10^3 = x. */
  lemma Thousandths(x: real, n: int, thousand: real)
    requires thousand == Scale(3) && x * 1000.0 == n as real
    ensures n as real / thousand == x
  {
    assert Pow10(3) == 1000;
  }

  /** a ≤ b gives a·p ≤ b·p for natural numbers. */
  lemma MulMono(a: nat, b: nat, p: nat)
    requires a <= b
    ensures a * p <= b * p
  {
  }

  /** Quotient and remainder are unique: n = q·p + r with r < p makes q and r those of n by p. */
  lemma DivUnique(n: nat, p: nat, q: nat, r: nat)
    requires p >= 1 && n == q * p + r && r < p
    ensures n / p == q && n % p == r
  {
    DivMod(n, p);
    var q' := n / p;
    if q' > q {
      MulMono(q + 1, q', p);
    } else if q' < q {
      MulMono(q' + 1, q, p);
    }
  }

  /** The text of n × 10^-scale from the digits of its quotient and its stripped remainder. */
  lemma DecimalTextIs(n: nat, scale: nat, q: nat, r: nat, digits: string, fraction: string)
    requires n == q * Pow10(scale) + r && r < Pow10(scale)
    requires Digits(q) == digits && StripTrailingZeros(FixedDigits(r, scale)) == fraction
    ensures DecimalText(n, scale) == if fraction == [] then digits else digits + "." + fraction
  {
    DivUnique(n, Pow10(scale), q, r);
    DecimalTextParts(n, scale);
  }

  /** `FormatDouble` of n thousandths is the decimal text of n with three places. */
  lemma FormatDoubleIs(x: real, n: nat)
    requires x >= 0.0 && (x * 1000.0).Floor as real == x * 1000.0 && (x * 1000.0).Floor == n
    ensures FormatDouble(x) == DecimalText(n, 3)
  {
  }

  /** Trailing zeros of the fraction are dropped: 2500 thousandths is "2.5". */
  lemma TrailingZerosDropped()
    ensures DecimalText(2500, 3) == "2.5"
  {
    assert FixedDigits(500, 3) == FixedDigits(50, 2) + "0";
    assert FixedDigits(50, 2) == FixedDigits(5, 1) + "0";
    assert FixedDigits(5, 1) == "5";
    assert StripTrailingZeros("500") == "5";
    assert Pow10(3) == 1000;
    DecimalTextIs(2500, 3, 2, 500, "2", "5");
  }

  /** A value below one keeps its single leading zero: 100 thousandths is "0.1". */
  lemma LeadingZeroKept()
    ensures DecimalText(100, 3) == "0.1"
  {
    assert FixedDigits(100, 3) == FixedDigits(10, 2) + "0";
    assert FixedDigits(10, 2) == FixedDigits(1, 1) + "0";
    assert FixedDigits(1, 1) == "1";
    assert StripTrailingZeros("100") == "1";
    assert Pow10(3) == 1000;
    DecimalTextIs(100, 3, 0, 100, "0", "1");
  }

  /** A fraction without trailing zeros is written in full: 9321 thousandths is "9.321". */
  lemma AllFractionDigits()
    ensures DecimalText(9321, 3) == "9.321"
  {
    assert FixedDigits(321, 3) == FixedDigits(32, 2) + "1";
    assert FixedDigits(32, 2) == FixedDigits(3, 1) + "2";
    assert FixedDigits(3, 1) == "3";
    assert StripTrailingZeros("321") == "321";
    assert Pow10(3) == 1000;
    DecimalTextIs(9321, 3, 9, 321, "9", "321");
  }

  /** A whole number has no point: 2500000 thousandths is "2500". */
  lemma WholeNumberWithoutPoint()
    ensures DecimalText(2500000, 3) == "2500"
  {
    ZeroFraction();
    assert Digits(2500) == Digits(250) + "0";
    assert Digits(250) == Digits(25) + "0";
    assert Digits(25) == Digits(2) + "5";
    assert Pow10(3) == 1000;
    DecimalTextIs(2500000, 3, 2500, 0, "2500", "");
  }

  /** Three zero digits strip to nothing. */
  lemma ZeroFraction()
    ensures StripTrailingZeros(FixedDigits(0, 3)) == ""
  {
    assert FixedDigits(0, 1) == "0";
    assert FixedDigits(0, 2) == "00";
    assert FixedDigits(0, 3) == "000";
    assert StripTrailingZeros("") == "";
    assert StripTrailingZeros("0") == "";
    assert StripTrailingZeros("00") == "";
  }
}
