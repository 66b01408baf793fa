/** The concrete cases of parser_test.go, stated against the model. */
module Cases {
  import opened Outcomes
  import opened Grammar
  import opened Measuring
  import opened Literal
  import opened Parser
  import opened Formatting

  /** TestValidateMeasure, plus the empty token, "BYTES" and a bare "i". */
  lemma ValidateMeasureCases()
    ensures ValidateMeasure("MB") && ValidateMeasure("mb") && ValidateMeasure("GiB")
    ensures ValidateMeasure("pib") && ValidateMeasure("b") && ValidateMeasure("i")
    ensures !ValidateMeasure("MBN") && !ValidateMeasure("Bites")
    ensures !ValidateMeasure("BYTES") && !ValidateMeasure("")
  {
    assert "BYTES"[1..] == "YTES";
  }

  /** The empty token is refused by ValidateMeasure but is a valid divisor (1) for GetCompiledInMeasure. */
  lemma EmptyMeasureAsymmetry(rs: ReadableSize)
    ensures !ValidateMeasure("")
    ensures GetCompiledInMeasure(rs, "") == Ok(rs.compiled)
    ensures CompileMeasuring("") == 1
  {
  }

  /** The number forms of sizePattern. */
  lemma NumberCases()
    ensures NumberPattern(".5") && NumberPattern("1000.500") && NumberPattern("10")
    ensures !NumberPattern("5.") && !NumberPattern(".") && !NumberPattern("")
  {
    assert ".5"[0] == '.' && ".5"[..0] == "" && ".5"[1..] == "5";
    assert "1000.500"[4] == '.' && "1000.500"[..4] == "1000" && "1000.500"[5..] == "500";
    assert "5."[2..] == "" && "."[1..] == "";
    assert !IsDigit("5."[1]) && !IsDigit("."[0]);
  }

  /**
   * The cases of TestCompile take the input apart as a number and a token.
   * The lemmas below name the two parts as parameters fixed by their
   * requires clauses instead of writing the literals into their ensures:
   * with a literal argument the verifier unfolds Compile, NumberEnd and
   * LiteralValue on the whole string eagerly, which costs many times more
   * than the same proof about a named string.
   */
  lemma TenDigits(ten: string)
    requires ten == "10"
    ensures IntegerPattern(ten) && DigitsValue(ten) == 10 && DigitsValue(ten) < MaxExactInteger
  {
    assert ten[..1] == "1";
    assert ten[..1][..0] == "";
  }

  lemma Digits1024()
    ensures IntegerPattern("1024") && DigitsValue("1024") == 1024
  {
    assert "1024"[..3] == "102" && "102"[..2] == "10" && "10"[..1] == "1" && "1"[..0] == "";
  }

  /** TestCompile "without_measure": "1024" is 1024 bytes. */
  lemma PlainNumberCase(input: string)
    requires input == "1024"
    ensures Compile(input) == Ok(ReadableSize(input, 1, Exact(1024.0)))
  {
    Digits1024();
    assert input + "" == input;
    ExactIntegerProduct(input, "");
  }

  /** TestCompile "b": "10" with each byte word is 10 bytes. */
  lemma ByteWordCases(ten: string, u: string)
    requires ten == "10" && u in ByteWords
    ensures Compile(ten + u) == Ok(ReadableSize(ten + u, 1, Exact(10.0)))
  {
    TenDigits(ten);
    MeasurePatternIsUnitForm(u);
    assert CompileMeasuring(u) == 1;
    ExactIntegerProduct(ten, u);
  }

  /** TestCompile "k": "10" with every spelling of kilobytes is 10 * 2^10 bytes. */
  lemma KiloCases(ten: string, u: string)
    requires ten == "10" && u in {"k", "kb", "kib", "K", "KB", "KiB", "KIB"}
    ensures Compile(ten + u) == Ok(ReadableSize(ten + u, 1024, Exact(10240.0)))
  {
    TenDigits(ten);
    assert MeasurePattern(u) && ToLower(u[0]) == 'k';
    ExactIntegerProduct(ten, u);
  }

  /** TestCompile "m": "10" with every spelling of megabytes is 10 * 2^20 bytes. */
  lemma MegaCases(ten: string, u: string)
    requires ten == "10" && u in {"m", "mb", "mib", "M", "MB", "MiB", "MIB"}
    ensures Compile(ten + u) == Ok(ReadableSize(ten + u, 1048576, Exact(10485760.0)))
  {
    TenDigits(ten);
    assert MeasurePattern(u) && ToLower(u[0]) == 'm';
    var m := CompileMeasuring(u);
    assert m == 1048576;
    assert DigitsValue(ten) * m == 10485760;
    ExactIntegerProduct(ten, u);
  }

  /** TestCompile "g": "10" with every spelling of gigabytes is 10 * 2^30 bytes. */
  lemma GigaCases(ten: string, u: string)
    requires ten == "10" && u in {"g", "gb", "gib", "G", "GB", "GiB", "GIB"}
    ensures Compile(ten + u) == Ok(ReadableSize(ten + u, 1073741824, Exact(10737418240.0)))
  {
    TenDigits(ten);
    assert MeasurePattern(u) && ToLower(u[0]) == 'g';
    var m := CompileMeasuring(u);
    assert m == 1073741824;
    assert DigitsValue(ten) * m == 10737418240;
    ExactIntegerProduct(ten, u);
  }

  /** TestCompile "t": "10" with every spelling of terabytes is 10 * 2^40 bytes. */
  lemma TeraCases(ten: string, u: string)
    requires ten == "10" && u in {"t", "tb", "tib", "T", "TB", "TiB", "TIB"}
    ensures Compile(ten + u) == Ok(ReadableSize(ten + u, 1099511627776, Exact(10995116277760.0)))
  {
    TenDigits(ten);
    assert MeasurePattern(u) && ToLower(u[0]) == 't';
    var m := CompileMeasuring(u);
    assert m == 1099511627776;
    assert DigitsValue(ten) * m == 10995116277760;
    ExactIntegerProduct(ten, u);
  }

  /** TestCompile "p": "10" with every spelling of petabytes is 10 * 2^50 bytes. */
  lemma PetaCases(ten: string, u: string)
    requires ten == "10" && u in {"p", "pb", "pib", "P", "PB", "PiB", "PIB"}
    ensures Compile(ten + u) == Ok(ReadableSize(ten + u, 1125899906842624, Exact(11258999068426240.0)))
  {
    TenDigits(ten);
    assert MeasurePattern(u) && ToLower(u[0]) == 'p';
    var m := CompileMeasuring(u);
    assert m == 1125899906842624;
    assert DigitsValue(ten) * m == 11258999068426240;
    ExactIntegerProduct(ten, u);
  }

  /** TestCompile "e": "10" with every spelling of exabytes is exactly 10 * 2^60 bytes. */
  lemma ExaCases(ten: string, u: string)
    requires ten == "10" && u in {"e", "eb", "eib", "E", "EB", "EiB", "EIB"}
    ensures Compile(ten + u) ==
      Ok(ReadableSize(ten + u, 0x1000_0000_0000_0000, Exact(0xA000_0000_0000_0000 as real)))
  {
    TenDigits(ten);
    assert MeasurePattern(u) && ToLower(u[0]) == 'e';
    var m := CompileMeasuring(u);
    assert m == 0x1000_0000_0000_0000;
    assert DigitsValue(ten) * m == 0xA000_0000_0000_0000;
    ExactIntegerProduct(ten, u);
  }

  /** The literal of TestCompile "float" stands for 1000.5. */
  lemma FractionValue(whole: string, fraction: string)
    requires whole == "1000" && fraction == "500"
    ensures NumberPattern(whole + "." + fraction) && LiteralValue(whole + "." + fraction) == 1000.5
  {
    assert DigitsValue(whole) == 1000 by {
      assert whole[..3] == "100" && "100"[..2] == "10" && "10"[..1] == "1" && "1"[..0] == "";
    }
    assert DigitsValue(fraction) == 500 by {
      assert fraction[..2] == "50" && "50"[..1] == "5" && "5"[..0] == "";
    }
    FractionLiteralValue(whole, fraction);
  }

  /**
   * TestCompile "float": "1000.500MB" compiles with the megabyte multiplier.
   * Its literal is a fraction, so the compiled size is a rounded float64
   * product, which the model does not compute.
   */
  lemma FractionCase(number: string, unit: string)
    requires number == "1000.500" && unit == "MB"
    ensures Compile(number + unit) == Ok(ReadableSize(number + unit, 1048576, FloatRounded))
  {
    NumberCases();
    ShortNumberCompiles(number, unit);
    assert !IsDigit(number[4]);
    assert ToLower(unit[0]) == 'm';
  }

  /** TestCompileMeasure: "10MMB" does not compile, so MustCompile panics on it. */
  lemma DoubledPrefixRejected(input: string)
    requires input == "10MMB"
    ensures Compile(input).Err?
  {
    assert NumberEnd(input) == 2 by {
      assert input[1..] == "0MMB" && input[1..][1..] == "MMB";
    }
    assert input[2..] == "MMB";
  }

  /** TestBytesToSize: the unit and magnitude chosen for each test value. */
  lemma LadderCases()
    ensures LadderIndex(512.0) == 0 && Scaled(512.0, 0) == 512.0
    ensures LadderIndex(2097152.0) == 2 && Scaled(2097152.0, 2) == 2.0
    ensures LadderIndex(1610612736.0) == 3 && Scaled(1610612736.0, 3) == 1.5
    ensures LadderIndex(1099511627776.0) == 4 && Scaled(1099511627776.0, 4) == 1.0
    ensures LadderIndex(562949953421312.0) == 4 && Scaled(562949953421312.0, 4) == 512.0
  {
    PowersOf1024();
    LadderIndexUnique(512.0, 0);
    LadderIndexUnique(2097152.0, 2);
    LadderIndexUnique(1610612736.0, 3);
    LadderIndexUnique(1099511627776.0, 4);
    LadderIndexUnique(562949953421312.0, 4);
  }

  /** 2.596 * 2^60 stays in "EB" with magnitude 2.596. */
  lemma ExabyteCase()
    ensures LadderIndex(2.596 * 0x1000_0000_0000_0000 as real) == 6
    ensures Scaled(2.596 * 0x1000_0000_0000_0000 as real, 6) == 2.596
  {
    PowersOf1024();
    LadderIndexUnique(2.596 * 0x1000_0000_0000_0000 as real, 6);
  }
}
