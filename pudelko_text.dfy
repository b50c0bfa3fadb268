/**
 * The text forms of a box: `ToString` with the format codes "m", "cm" and "mm",
 * and the static `Parse`, which reads the form `ToString` writes back in metres.
 * Numbers are written and read with '.' as the decimal separator.
 */
module PudelkoText {
  import opened Wrappers
  import opened Rounding
  import opened NetText
  import opened PudelkoLibrary

  /** The separator between the three dimensions, '×' (U+00D7). */
  const Times: char := '\U{00D7}'

  /** The suffix written after a dimension in `unit`. */
  function Symbol(unit: UnitOfMeasure): string {
    match unit
    case Milimeter => "mm"
    case Centimeter => "cm"
    case Meter => "m"
  }

  /** The unit a suffix names, as `Parse` reads it. */
  function UnitOf(code: string): (r: Option<UnitOfMeasure>)
    ensures r.Some? <==> code == "cm" || code == "mm" || code == "m"
    ensures r.Some? ==> Symbol(r.value) == code
  {
    if code == "cm" then Some(Centimeter)
    else if code == "mm" then Some(Milimeter)
    else if code == "m" then Some(Meter)
    else None
  }

  /** Every unit's suffix is read back as that unit. */
  lemma UnitOfSymbol(unit: UnitOfMeasure)
    ensures UnitOf(Symbol(unit)) == Some(unit)
  {
  }

  /** A length in metres as `ToString` writes it for `unit`: `A`, `A * 100` or `A * 1000`. */
  function Scaled(metres: real, unit: UnitOfMeasure): real {
    match unit
    case Meter => metres
    case Centimeter => metres * 100.0
    case Milimeter => metres * 1000.0
  }

  /** Converting a scaled length back to metres gives the length again. */
  lemma ScaledBack(metres: real, unit: UnitOfMeasure)
    ensures ConvertToMeters(Scaled(metres, unit), unit) == metres
  {
  }

  /** A non-negative whole number of thousandths, the values `FormatDouble` writes. */
  predicate OnThousandths(x: real) {
    x >= 0.0 && (x * 1000.0).Floor as real == x * 1000.0
  }

  /** A whole number of millimetres stays a whole number of thousandths in every unit. */
  lemma ScaledOnThousandths(n: Millimetres, unit: UnitOfMeasure)
    ensures OnThousandths(Scaled(Metres(n), unit))
  {
    var factor := match unit case Meter => 1 case Centimeter => 100 case Milimeter => 1000;
    assert Scaled(Metres(n), unit) * 1000.0 == (n * factor) as real;
  }

  /** The number written for a dimension of `n` millimetres in `unit`. */
  function Number(n: Millimetres, unit: UnitOfMeasure): (t: string)
    ensures IsPlainDecimal(t) && IsShortest(t)
  {
    ScaledOnThousandths(n, unit);
    FormatDouble(Scaled(Metres(n), unit))
  }

  /** `double.TryParse` reads the number written for a dimension back as the scaled value. */
  lemma NumberParses(n: Millimetres, unit: UnitOfMeasure)
    ensures TryParseDouble(Number(n, unit)) == Some(Scaled(Metres(n), unit))
  {
    ScaledOnThousandths(n, unit);
    FormatDoubleParses(Scaled(Metres(n), unit));
  }

  /** One dimension of the text: "<value> <suffix>". */
  function Segment(n: Millimetres, unit: UnitOfMeasure): string {
    Number(n, unit) + " " + Symbol(unit)
  }

  /** The three dimensions of `p` in `unit`, joined by " × ". */
  function Text(p: Pudelko, unit: UnitOfMeasure): string {
    Segment(p.a, unit) + [' ', Times, ' '] + Segment(p.b, unit) + [' ', Times, ' '] + Segment(p.c, unit)
  }

  /** The format code `ToString` acts on: null or "" stands for "m". */
  function FormatCode(format: Option<string>): string {
    if format.None? || format.value == "" then "m" else format.value
  }

  /** `ToString(format, formatProvider)`: the text in the unit the code names; any code but "m", "cm", "mm" is refused. */
  function ToString(p: Pudelko, format: Option<string>): (r: Result<string, Exception>)
    ensures r.Ok? <==> format.None? || format.value in {"", "m", "cm", "mm"}
    ensures r.Ok? ==> UnitOf(FormatCode(format)).Some? && r.value == Text(p, UnitOf(FormatCode(format)).value)
    ensures r.Err? ==> r.error == Format
  {
    var code := FormatCode(format);
    if code == "m" then Ok(Text(p, Meter))
    else if code == "cm" then Ok(Text(p, Centimeter))
    else if code == "mm" then Ok(Text(p, Milimeter))
    else Err(Format)
  }

  /** `ToString()`: the text in metres. */
  function ToStringDefault(p: Pudelko): (s: string)
    ensures ToString(p, Some("m")) == Ok(s) && ToString(p, None) == Ok(s)
  {
    Text(p, Meter)
  }

  /** The number written for `n` millimetres in `unit` is the decimal text of its `k` thousandths. */
  lemma NumberIs(n: Millimetres, unit: UnitOfMeasure, k: nat)
    requires Scaled(Metres(n), unit) * 1000.0 == k as real
    ensures Number(n, unit) == DecimalText(k, 3)
  {
    var x := Scaled(Metres(n), unit);
    ScaledOnThousandths(n, unit);
    assert (x * 1000.0).Floor == k;
    FormatDoubleIs(x, k);
  }

  /** The text of a box, given the numbers written for its three dimensions. */
  lemma TextIs(p: Pudelko, unit: UnitOfMeasure, x: string, y: string, z: string)
    requires Number(p.a, unit) == x && Number(p.b, unit) == y && Number(p.c, unit) == z
    ensures Text(p, unit) == (x + " " + Symbol(unit)) + " × " + (y + " " + Symbol(unit)) + " × " + (z + " " + Symbol(unit))
  {
    assert [' ', Times, ' '] == " × ";
  }

  /** Numbers are written in their shortest form: 2.5 m is "2.5", not "2.500", and 0.1 m is "0.1". */
  lemma ToStringExamples()
    ensures ToString(Pudelko(2500, 9321, 100, Meter), None) == Ok("2.5 m × 9.321 m × 0.1 m")
  {
    var p := Pudelko(2500, 9321, 100, Meter);
    assert ToString(p, None) == Ok(Text(p, Meter)) by {
      var s := ToStringDefault(p);
    }
    assert Number(2500, Meter) == "2.5" by {
      NumberIs(2500, Meter, 2500);
      TrailingZerosDropped();
    }
    assert Number(9321, Meter) == "9.321" by {
      NumberIs(9321, Meter, 9321);
      AllFractionDigits();
    }
    assert Number(100, Meter) == "0.1" by {
      NumberIs(100, Meter, 100);
      LeadingZeroKept();
    }
    TextIs(p, Meter, "2.5", "9.321", "0.1");
    ExampleText();
  }

  /** The example's text, assembled one piece at a time. */
  lemma ExampleText()
    ensures ("2.5" + " " + "m") + " × " + ("9.321" + " " + "m") + " × " + ("0.1" + " " + "m") == "2.5 m × 9.321 m × 0.1 m"
  {
    assert "2.5" + " " + "m" == "2.5 m";
    assert "9.321" + " " + "m" == "9.321 m";
    assert "0.1" + " " + "m" == "0.1 m";
    assert "2.5 m" + " × " == "2.5 m × ";
    assert "2.5 m × " + "9.321 m" == "2.5 m × 9.321 m";
    assert "2.5 m × 9.321 m" + " × " == "2.5 m × 9.321 m × ";
    assert "2.5 m × 9.321 m × " + "0.1 m" == "2.5 m × 9.321 m × 0.1 m";
  }

  /** In millimetres a whole number is written without a point: 2.5 m is "2500". */
  lemma MillimetresExample()
    ensures Number(2500, Milimeter) == "2500"
  {
    NumberIs(2500, Milimeter, 2500000);
    WholeNumberWithoutPoint();
  }

  /** One part between the '×' separators, read as a length in metres. */
  function ParseDimension(part: string): (r: Result<real, Exception>)
    ensures r.Err? ==> r.error == Format
  {
    var valueUnit := RemoveEmpty(Split(Trim(part), ' '));
    if |valueUnit| != 2 then Err(Format)
    else
      match TryParseDouble(valueUnit[0])
      case None => Err(Format)
      case Some(value) =>
        match UnitOf(valueUnit[1])
        case None => Err(Format)
        case Some(unit) => Ok(ConvertToMeters(value, unit))
  }

  /** The parts read in order by `parse`, stopping at the first that cannot be read. */
  function ParseAll(parts: seq<string>, parse: string -> Result<real, Exception>): (r: Result<seq<real>, Exception>)
    ensures r.Ok? <==> forall j :: 0 <= j < |parts| ==> parse(parts[j]).Ok?
    ensures r.Ok? ==> |r.value| == |parts| && forall j :: 0 <= j < |parts| ==> parse(parts[j]) == Ok(r.value[j])
  {
    if parts == [] then Ok([])
    else
      var last := |parts| - 1;
      match ParseAll(parts[..last], parse)
      case Err(e) => Err(e)
      case Ok(prefix) =>
        match parse(parts[last])
        case Err(e) => Err(e)
        case Ok(x) => Ok(prefix + [x])
  }

  /** Reading part `i` extends the values read from the parts before it. */
  lemma ParseAllStep(parts: seq<string>, i: nat, parse: string -> Result<real, Exception>,
                     values: seq<real>, value: real)
    requires i < |parts|
    requires ParseAll(parts[..i], parse) == Ok(values) && parse(parts[i]) == Ok(value)
    ensures ParseAll(parts[..i + 1], parse) == Ok(values + [value])
  {
    assert parts[..i + 1][..i] == parts[..i];
  }

  /** Three parts that each read as a value read together as the three values. */
  lemma ParseAllThree(x: string, y: string, z: string, parse: string -> Result<real, Exception>, u: real, v: real, w: real)
    requires parse(x) == Ok(u) && parse(y) == Ok(v) && parse(z) == Ok(w)
    ensures ParseAll([x, y, z], parse) == Ok([u, v, w])
  {
    var parts := [x, y, z];
    assert parts[..0] == [];
    ParseAllStep(parts, 0, parse, [], u);
    assert [] + [u] == [u];
    ParseAllStep(parts, 1, parse, [u], v);
    assert [u] + [v] == [u, v];
    ParseAllStep(parts, 2, parse, [u, v], w);
    assert [u, v] + [w] == [u, v, w];
    assert parts[..3] == parts;
  }

  /** A part that cannot be read makes reading all the parts fail. */
  lemma ParseAllStops(parts: seq<string>, i: nat, parse: string -> Result<real, Exception>)
    requires i < |parts| && parse(parts[i]).Err?
    ensures ParseAll(parts, parse).Err?
  {
  }

  /** What `Parse(input)` returns, or the exception it throws. */
  function Parsed(input: Option<string>): (r: Result<Pudelko, Exception>)
    ensures r == Err(ArgumentNull) <==> IsNullOrWhiteSpace(input)
    ensures !IsNullOrWhiteSpace(input) && |RemoveEmpty(Split(input.value, Times))| != 3 ==> r == Err(Format)
    ensures !IsNullOrWhiteSpace(input) && |RemoveEmpty(Split(input.value, Times))| == 3 ==>
      var dimensions := ParseAll(RemoveEmpty(Split(input.value, Times)), ParseDimension);
      (dimensions.Err? ==> r == Err(Format))
      && (dimensions.Ok? ==> r == Construct(dimensions.value[0], dimensions.value[1], dimensions.value[2], Meter))
    ensures r.Ok? ==> r.value.unit == Meter
  {
    if IsNullOrWhiteSpace(input) then Err(ArgumentNull)
    else
      var parts := RemoveEmpty(Split(input.value, Times));
      if |parts| != 3 then Err(Format)
      else
        match ParseAll(parts, ParseDimension)
        case Err(_) => Err(Format)
        case Ok(dimensions) => Construct(dimensions[0], dimensions[1], dimensions[2], Meter)
  }

  /** The tokens of one part: trimmed, split on spaces, empty pieces dropped. */
  function Tokens(part: string): seq<string> {
    RemoveEmpty(Split(Trim(part), ' '))
  }

  /** A part whose two tokens are a number and a unit suffix reads as that number converted to metres. */
  lemma ParseDimensionReads(part: string, value: real, unit: UnitOfMeasure)
    requires |Tokens(part)| == 2 && TryParseDouble(Tokens(part)[0]) == Some(value) && Tokens(part)[1] == Symbol(unit)
    ensures ParseDimension(part) == Ok(ConvertToMeters(value, unit))
  {
    UnitOfSymbol(unit);
  }

  /** A part without exactly two tokens, a number first and a unit suffix second, is a format error. */
  lemma ParseDimensionRejects(part: string)
    requires |Tokens(part)| != 2 || TryParseDouble(Tokens(part)[0]).None? || UnitOf(Tokens(part)[1]).None?
    ensures ParseDimension(part) == Err(Format)
  {
  }

  /** One pass of the loop in `Parse`: trims the part, splits it on spaces and reads the number and its unit. */
  method ReadDimension(part: string) returns (r: Result<real, Exception>)
    ensures r == ParseDimension(part)
  {
    var trimmed := Trim(part);
    var valueUnit := RemoveEmpty(Split(trimmed, ' '));
    assert valueUnit == Tokens(part);
    if |valueUnit| != 2 {
      ParseDimensionRejects(part);
      return Err(Format);
    }
    var value := TryParseDouble(valueUnit[0]);
    if value.None? {
      ParseDimensionRejects(part);
      return Err(Format);
    }
    var unit;
    if valueUnit[1] == "cm" {
      unit := Centimeter;
    } else if valueUnit[1] == "mm" {
      unit := Milimeter;
    } else if valueUnit[1] == "m" {
      unit := Meter;
    } else {
      ParseDimensionRejects(part);
      return Err(Format);
    }
    ParseDimensionReads(part, value.value, unit);
    if unit == Milimeter {
      r := Ok(value.value / 1000.0);
    } else if unit == Centimeter {
      r := Ok(value.value / 100.0);
    } else {
      r := Ok(value.value);
    }
  }

  /** The loop of `Parse`: reads part `i` into `dimensions[i]`, stopping at the first part that cannot be read. */
  method ReadParts(parts: seq<string>, dimensions: array<real>) returns (ok: bool)
    requires dimensions.Length == |parts|
    modifies dimensions
    ensures ok <==> ParseAll(parts, ParseDimension).Ok?
    ensures ok ==> ParseAll(parts, ParseDimension) == Ok(dimensions[..])
  {
    for i := 0 to |parts|
      invariant ParseAll(parts[..i], ParseDimension) == Ok(dimensions[..i])
    {
      var dimension := ReadDimension(parts[i]);
      if dimension.Err? {
        ParseAllStops(parts, i, ParseDimension);
        return false;
      }
      ghost var read := dimensions[..i];
      ParseAllStep(parts, i, ParseDimension, read, dimension.value);
      dimensions[i] := dimension.value;
      assert dimensions[..i + 1] == read + [dimension.value];
    }
    assert parts[..|parts|] == parts;
    assert dimensions[..|parts|] == dimensions[..];
    return true;
  }

  /** `Parse`: splits on '×', reads the three parts into a `double[3]`, then builds the box in metres. */
  method Parse(input: Option<string>) returns (r: Result<Pudelko, Exception>)
    ensures r == Parsed(input)
  {
    if IsNullOrWhiteSpace(input) {
      return Err(ArgumentNull);
    }
    var parts := RemoveEmpty(Split(input.value, Times));
    if |parts| != 3 {
      return Err(Format);
    }
    var dimensions := new real[3];
    var ok := ReadParts(parts, dimensions);
    if !ok {
      return Err(Format);
    }
    r := Construct(dimensions[0], dimensions[1], dimensions[2], Meter);
  }

  // ---------------------------------------------------------------- round trip

  /** A unit suffix is a non-empty word: no spaces, and it does not end in white space. */
  lemma SymbolIsWord(unit: UnitOfMeasure)
    ensures Symbol(unit) != [] && ' ' !in Symbol(unit) && !IsWhiteSpace(Symbol(unit)[|Symbol(unit)| - 1])
  {
  }

  /** A plain decimal followed by a space and a word, padded by at most one space on each side,
      has exactly the number and the word as tokens. */
  lemma SegmentTokens(left: string, t: string, symbol: string, right: string)
    requires left == "" || left == " "
    requires right == "" || right == " "
    requires IsPlainDecimal(t)
    requires symbol != [] && ' ' !in symbol && !IsWhiteSpace(symbol[|symbol| - 1])
    ensures Tokens(left + (t + " " + symbol) + right) == [t, symbol]
  {
    assert ' ' !in t by {
      forall i | 0 <= i < |t| ensures t[i] != ' ' {
      }
    }
    var core := t + " " + symbol;
    assert core[0] == t[0] && core[|core| - 1] == symbol[|symbol| - 1];
    SplitAtFirst(t, symbol, ' ');
    SplitWithoutSeparator(symbol, ' ');
    RemoveEmptyKeeps([t, symbol]);
    TrimPadded(left, core, right, AnyWhiteSpace);
  }

  /** The text of one dimension holds no '×'. */
  lemma SegmentWithoutTimes(n: Millimetres, unit: UnitOfMeasure)
    ensures Times !in Segment(n, unit)
  {
    var t := Number(n, unit);
    assert Times !in t by {
      forall i | 0 <= i < |t| ensures t[i] != Times {
      }
    }
    assert Times !in " " + Symbol(unit);
  }

  /** Three pieces without '×', joined by " × ", split back into the pieces with their spaces. */
  lemma SplitText(x: string, y: string, z: string)
    requires Times !in x && Times !in y && Times !in z
    ensures RemoveEmpty(Split(x + [' ', Times, ' '] + y + [' ', Times, ' '] + z, Times))
      == [x + " ", " " + y + " ", " " + z]
  {
    var x', y', z' := x + " ", " " + y + " ", " " + z;
    assert Times !in x' && Times !in y' && Times !in z';
    assert x + [' ', Times, ' '] + y + [' ', Times, ' '] + z == x' + [Times] + (y' + [Times] + z');
    SplitAtFirst(x', y' + [Times] + z', Times);
    SplitAtFirst(y', z', Times);
    SplitWithoutSeparator(z', Times);
    RemoveEmptyKeepsThree(x', y', z');
  }

  /** Three non-empty parts survive `RemoveEmptyEntries`. */
  lemma RemoveEmptyKeepsThree(x: string, y: string, z: string)
    requires |x| > 0 && |y| > 0 && |z| > 0
    ensures RemoveEmpty([x, y, z]) == [x, y, z]
  {
    RemoveEmptyKeeps([x, y, z]);
  }

  /** A segment padded by at most one space on each side reads back as its value. */
  lemma SegmentParses(left: string, n: Millimetres, unit: UnitOfMeasure, right: string)
    requires left == "" || left == " "
    requires right == "" || right == " "
    ensures ParseDimension(left + Segment(n, unit) + right) == Ok(Metres(n))
  {
    SymbolIsWord(unit);
    NumberParses(n, unit);
    SegmentTokens(left, Number(n, unit), Symbol(unit), right);
    ParseDimensionReads(left + Segment(n, unit) + right, Scaled(Metres(n), unit), unit);
    ScaledBack(Metres(n), unit);
  }

  /** The text of a box in any unit splits into its three segments. */
  lemma TextParts(p: Pudelko, unit: UnitOfMeasure)
    ensures RemoveEmpty(Split(Text(p, unit), Times))
      == [Segment(p.a, unit) + " ", " " + Segment(p.b, unit) + " ", " " + Segment(p.c, unit)]
  {
    SegmentWithoutTimes(p.a, unit);
    SegmentWithoutTimes(p.b, unit);
    SegmentWithoutTimes(p.c, unit);
    SplitText(Segment(p.a, unit), Segment(p.b, unit), Segment(p.c, unit));
  }

  /** Text that starts with a plain decimal is not blank. */
  lemma StartsWithNumber(t: string, symbol: string, y: string, z: string)
    requires IsPlainDecimal(t)
    ensures !IsNullOrWhiteSpace(Some(t + " " + symbol + [' ', Times, ' '] + y + [' ', Times, ' '] + z))
  {
    assert (t + " " + symbol + [' ', Times, ' '] + y + [' ', Times, ' '] + z)[0] == t[0];
  }

  /** The text of a box starts with a digit, so it is not blank. */
  lemma TextNotBlank(p: Pudelko, unit: UnitOfMeasure)
    ensures !IsNullOrWhiteSpace(Some(Text(p, unit)))
  {
    StartsWithNumber(Number(p.a, unit), Symbol(unit), Segment(p.b, unit), Segment(p.c, unit));
  }

  /** An empty string on either side of a padded segment adds nothing. */
  lemma Unpadded(s: string)
    ensures "" + s + " " == s + " " && " " + s + "" == " " + s
  {
  }

  /** The three segments of the text of a box read back as its three dimensions in metres. */
  lemma TextPartsParse(p: Pudelko, unit: UnitOfMeasure)
    ensures ParseAll([Segment(p.a, unit) + " ", " " + Segment(p.b, unit) + " ", " " + Segment(p.c, unit)], ParseDimension)
      == Ok([Metres(p.a), Metres(p.b), Metres(p.c)])
  {
    var x, y, z := Segment(p.a, unit) + " ", " " + Segment(p.b, unit) + " ", " " + Segment(p.c, unit);
    Unpadded(Segment(p.a, unit));
    Unpadded(Segment(p.c, unit));
    SegmentParses("", p.a, unit, " ");
    SegmentParses(" ", p.b, unit, " ");
    SegmentParses(" ", p.c, unit, "");
    ParseAllThree(x, y, z, ParseDimension, Metres(p.a), Metres(p.b), Metres(p.c));
  }

  /** `Parse` reads the text of a box in any unit back as the same dimensions, in metres. */
  lemma ParseText(p: Pudelko, unit: UnitOfMeasure)
    ensures Parsed(Some(Text(p, unit))) == Ok(Pudelko(p.a, p.b, p.c, Meter))
  {
    TextParts(p, unit);
    TextNotBlank(p, unit);
    TextPartsParse(p, unit);
    ConstructFromStored(p.a, p.b, p.c);
  }

  /** Whatever format `ToString` accepts, `Parse` reads its text back as a box equal to the original. */
  lemma ToStringParseRoundTrip(p: Pudelko, format: Option<string>)
    requires ToString(p, format).Ok?
    ensures Parsed(Some(ToString(p, format).value)) == Ok(Pudelko(p.a, p.b, p.c, Meter))
    ensures Equal(p, Pudelko(p.a, p.b, p.c, Meter))
  {
    ParseText(p, UnitOf(FormatCode(format)).value);
  }
}
