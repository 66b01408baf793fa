/**
 * `ReadableSize` and the functions of parser.go that build and query it:
 * Compile, MustCompile, ValidateMeasure and GetCompiledInMeasure.
 */
module Parser {
  import opened Outcomes
  import opened Grammar
  import opened Measuring
  import opened Literal

  /**
   * A float64 (or big.Float) quantity: Exact(v) when the model can name its
   * value, FloatRounded when it went through float64 rounding that the
   * model does not compute.
   */
  datatype Quantity = Exact(value: real) | FloatRounded

  /**
   * `ReadableSize`: the input as given, its multiplier and the compiled
   * byte count.  It has no mutators; GetInput and GetMeasure are the
   * field selectors `input` and `measure`.
   */
  datatype ReadableSize = ReadableSize(input: string, measure: nat, compiled: Quantity)

  /**
   * A record as Compile builds it.  The only other record a caller can
   * obtain is the zero value `ReadableSize{}`, whose nil `compiled` the
   * model does not represent.
   */
  ghost predicate Compiled(rs: ReadableSize): (b: bool)
    ensures b ==> SizePattern(rs.input) && IsMultiplier(rs.measure)
    ensures b && rs.compiled.Exact? ==> rs.compiled.value >= 0.0
  {
    Compile(rs.input) == Ok(rs)
  }

  /**
   * `big.NewFloat(sz).Mul(_, big.NewFloat(measure))` with `sz` the
   * float64 of the literal n.  An integer below 2^53 is a float64, and a
   * multiplication by a power of two is exact, so such a literal compiles
   * to exactly n * measure.
   */
  function CompiledFrom(n: string, measure: nat): (q: Quantity)
    requires NumberPattern(n)
    ensures q.Exact? ==> q.value >= 0.0
    ensures q.Exact? ==> q.value == LiteralValue(n) * measure as real
  {
    if IntegerPattern(n) && DigitsValue(n) < MaxExactInteger
    then Exact((DigitsValue(n) * measure) as real)
    else FloatRounded
  }

  /**
   * `Compile`: match the size pattern, split the input into number and
   * unit token, convert the number and resolve the unit.  On success the
   * input is kept verbatim; there is no partial result.
   */
  function Compile(input: string): (r: Result<ReadableSize>)
    ensures r.Ok? ==> SizePattern(input)
    ensures r.Ok? ==> r.value.input == input && IsMultiplier(r.value.measure)
    ensures r.Ok? && r.value.compiled.Exact? ==> r.value.compiled.value >= 0.0
    ensures r.Err? ==> r.message == "unsupported data size format"
  {
    var k := NumberEnd(input);
    var number, unit := input[..k], input[k..];
    if NumberPattern(number) && MeasurePattern(unit) && !Overflows(number) then
      var m := CompileMeasuring(unit);
      Ok(ReadableSize(input, m, CompiledFrom(number, m)))
    else
      Err("unsupported data size format")
  }

  /**
   * Whenever the input is a number followed by a unit token, Compile
   * succeeds unless the number overflows float64, and the result is
   * determined by that split.
   */
  lemma CompileFollowsSplit(input: string, k: nat)
    requires k <= |input|
    requires NumberPattern(input[..k]) && MeasurePattern(input[k..])
    ensures Compile(input) ==
      if Overflows(input[..k]) then Err("unsupported data size format")
      else
        var m := CompileMeasuring(input[k..]);
        Ok(ReadableSize(input, m, CompiledFrom(input[..k], m)))
  {
    SplitIsUnique(input, k);
  }

  /** Compile succeeds exactly on the inputs of the size pattern whose number does not overflow. */
  lemma CompileSucceedsExactlyOnGrammar(input: string)
    ensures Compile(input).Ok? <==>
      exists k | 0 <= k <= |input| ::
        NumberPattern(input[..k]) && MeasurePattern(input[k..]) && !Overflows(input[..k])
  {
    if Compile(input).Ok? {
      var k := NumberEnd(input);
      assert NumberPattern(input[..k]) && MeasurePattern(input[k..]) && !Overflows(input[..k]);
    }
    if exists k | 0 <= k <= |input| ::
        NumberPattern(input[..k]) && MeasurePattern(input[k..]) && !Overflows(input[..k]) {
      var k :| 0 <= k <= |input| &&
        NumberPattern(input[..k]) && MeasurePattern(input[k..]) && !Overflows(input[..k]);
      CompileFollowsSplit(input, k);
    }
  }

  /**
   * An integer literal n below 2^53 followed by any unit token compiles to
   * the input itself, the token's multiplier and exactly n times it.
   */
  lemma ExactIntegerProduct(digits: string, unit: string)
    requires IntegerPattern(digits) && DigitsValue(digits) < MaxExactInteger
    requires MeasurePattern(unit)
    ensures Compile(digits + unit) ==
      Ok(ReadableSize(digits + unit, CompileMeasuring(unit),
                      Exact((DigitsValue(digits) * CompileMeasuring(unit)) as real)))
  {
    var s := digits + unit;
    assert s[..|digits|] == digits && s[|digits|..] == unit;
    SmallIntegerFits(digits);
    CompileFollowsSplit(s, |digits|);
  }

  /** A grammatical input whose number has at most 12 characters always compiles. */
  lemma ShortNumberCompiles(number: string, unit: string)
    requires NumberPattern(number) && |number| <= 12 && MeasurePattern(unit)
    ensures Compile(number + unit) ==
      Ok(ReadableSize(number + unit, CompileMeasuring(unit), CompiledFrom(number, CompileMeasuring(unit))))
  {
    var s := number + unit;
    assert s[..|number|] == number && s[|number|..] == unit;
    ShortLiteralFits(number);
    CompileFollowsSplit(s, |number|);
  }

  /** An input without a number, the empty one or a bare unit token such as "Bytes", does not compile. */
  lemma NumberRequired(input: string)
    requires MeasurePattern(input)
    ensures Compile(input).Err?
  {
    if input != "" {
      TokenStartsWithLetter(input);
    }
    assert input[..0] == "";
  }

  /** `MustCompile`: Compile, where a failure is a panic and therefore the caller's obligation. */
  function MustCompile(input: string): (rs: ReadableSize)
    requires Compile(input).Ok?
    ensures Compile(input) == Ok(rs) && Compiled(rs)
    ensures rs.input == input && IsMultiplier(rs.measure)
  {
    Compile(input).value
  }

  /** `ValidateMeasure`: the unit grammar without the empty token. */
  function ValidateMeasure(format: string): (ok: bool)
    ensures ok <==> format != "" && UnitForm(format)
  {
    MeasurePatternIsUnitForm(format);
    if format == "" || !MeasurePattern(format) then false else true
  }

  /**
   * `GetCompiledInMeasure`: the compiled size divided by the multiplier of
   * another unit token.  Every token of the unit grammar is accepted,
   * the empty one included (divisor 1).
   */
  function GetCompiledInMeasure(rs: ReadableSize, measure: string): (r: Result<Quantity>)
    ensures r.Ok? <==> UnitForm(measure)
    ensures r.Err? ==> r.message == "unsupported measure format"
    ensures r.Ok? && rs.compiled.Exact? ==>
      r.value.Exact? && r.value.value * CompileMeasuring(measure) as real == rs.compiled.value
  {
    MeasurePatternIsUnitForm(measure);
    if MeasurePattern(measure) then Ok(Quotient(rs.compiled, CompileMeasuring(measure)))
    else
      Err("unsupported measure format")
  }

  /**
   * `big.Float.Quo` by a power of two followed by `Float64()`: exact on an
   * exact quantity, since dividing n * 2^a (n below 2^53) by 2^b stays a float64.
   */
  function Quotient(q: Quantity, divisor: nat): (d: Quantity)
    requires IsMultiplier(divisor)
    ensures d.Exact? <==> q.Exact?
    ensures d.Exact? ==> d.value * divisor as real == q.value
  {
    match q
    case Exact(v) => DivideThenMultiply(v, divisor); Exact(v / divisor as real)
    case FloatRounded => FloatRounded
  }

  /** Reading an integer size back in its own unit gives the literal back: "10KiB" in "KiB" is 10. */
  lemma InOwnMeasureRoundTrip(digits: string, unit: string)
    requires IntegerPattern(digits) && DigitsValue(digits) < MaxExactInteger
    requires MeasurePattern(unit)
    ensures Compile(digits + unit).Ok?
    ensures GetCompiledInMeasure(Compile(digits + unit).value, unit) == Ok(Exact(DigitsValue(digits) as real))
  {
    ExactIntegerProduct(digits, unit);
    var rs := Compile(digits + unit).value;
    var m := CompileMeasuring(unit);
    var n := DigitsValue(digits);
    assert rs.compiled == Exact((n * m) as real);
    assert GetCompiledInMeasure(rs, unit) == Ok(Exact((n * m) as real / m as real));
    CancelMultiplier(n, m);
  }

  lemma DivideThenMultiply(v: real, m: nat)
    requires m >= 1
    ensures (v / m as real) * m as real == v
  {
  }

  lemma CancelMultiplier(n: nat, m: nat)
    requires m >= 1
    ensures (n * m) as real / m as real == n as real
  {
    assert (n * m) as real == n as real * m as real;
  }
}
