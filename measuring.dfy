/**
 * Unit multipliers: `compileMeasuring` and the unit ladder `defaultMeasure`
 * of parser.go.  Every multiplier is a power of 1024.
 */
module Measuring {
  import opened Grammar

  /** 1024^k, i.e. 1 << (10 * k). */
  function Pow1024(k: nat): (p: nat)
    ensures p >= 1
  {
    if k == 0 then 1 else 1024 * Pow1024(k - 1)
  }

  /** The powers of 1024 written out, as parser.go writes them with shifts. */
  lemma PowersOf1024()
    ensures Pow1024(0) == 1 && Pow1024(1) == 1024 && Pow1024(2) == 1048576
    ensures Pow1024(3) == 1073741824 && Pow1024(4) == 1099511627776
    ensures Pow1024(5) == 1125899906842624 && Pow1024(6) == 1152921504606846976
  {
  }

  /** The seven multipliers a unit can stand for: 1024^0 .. 1024^6. */
  ghost predicate IsMultiplier(m: nat) {
    exists k | 0 <= k <= 6 :: m == Pow1024(k)
  }

  /** `defaultMeasure`: the units BytesToSize walks through, in ascending order. */
  const DefaultMeasure: seq<string> := ["B", "KB", "MB", "GB", "TB", "PB", "EB"]

  /** ASCII lower-casing, which is what `strings.ToLower` does to the letters that matter here. */
  function ToLower(c: char): (d: char)
    ensures !('A' <= d <= 'Z')
    ensures !('A' <= c <= 'Z') ==> d == c
    ensures 'A' <= c <= 'Z' ==> ToUpper(d) == c
  {
    if 'A' <= c <= 'Z' then (c as int + 32) as char else c
  }

  /**
   * The units of the ladder are tokens of the unit grammar, and each one
   * compiles back to its own step: the unit printed for index i stands for
   * 1024^i.
   */
  lemma DefaultMeasureUnits()
    ensures |DefaultMeasure| == 7 && DefaultMeasure[0] == "B"
    ensures forall i | 0 <= i < |DefaultMeasure| ::
      MeasurePattern(DefaultMeasure[i]) && CompileMeasuring(DefaultMeasure[i]) == Pow1024(i)
  {
    PowersOf1024();
    forall i | 0 <= i < |DefaultMeasure|
      ensures MeasurePattern(DefaultMeasure[i]) && CompileMeasuring(DefaultMeasure[i]) == Pow1024(i)
    {
      var u := DefaultMeasure[i];
      assert |u| <= 2 && (i > 0 ==> u[1] == 'B' && |u| == 2);
    }
  }

  /** ASCII upper-casing. */
  function ToUpper(c: char): char {
    if 'a' <= c <= 'z' then (c as int - 32) as char else c
  }

  /**
   * `compileMeasuring`: the multiplier of a unit token, chosen by its
   * lower-cased first character alone; the empty token and every first
   * character other than k, m, g, t, p, e give 1.
   */
  function CompileMeasuring(measure: string): (m: nat)
    ensures m >= 1 && IsMultiplier(m)
    ensures measure == "" ==> m == 1
  {
    PowersOf1024();
    if measure == "" then 1
    else
      match ToLower(measure[0])
      case 'k' => 1024
      case 'm' => 1048576
      case 'g' => 1073741824
      case 't' => 1099511627776
      case 'p' => 1125899906842624
      case 'e' => 1152921504606846976
      case _ => 1
  }

  /** The multiplier depends on nothing but the case-folded first character. */
  lemma FirstCharDetermines(u: string, v: string)
    requires u != "" && v != "" && ToLower(u[0]) == ToLower(v[0])
    ensures CompileMeasuring(u) == CompileMeasuring(v)
  {
  }

  /** The index of the ladder unit whose first letter is c, searching from index k; 0 when there is none. */
  function LadderSearch(c: char, k: nat): (r: nat)
    requires k <= |DefaultMeasure|
    ensures r < |DefaultMeasure|
    ensures r != 0 ==> DefaultMeasure[r][0] == c
    decreases |DefaultMeasure| - k
  {
    if k == |DefaultMeasure| then 0
    else if DefaultMeasure[k][0] == c then k
    else LadderSearch(c, k + 1)
  }

  /** The rank of a unit token: the position in defaultMeasure of the unit with the same (upper-cased) first letter. */
  function LadderRank(u: string): (k: nat)
    ensures k < |DefaultMeasure|
  {
    if u == "" then 0 else LadderSearch(ToUpper(u[0]), 0)
  }

  /**
   * The parser and the formatter agree on the units: a token's multiplier
   * is 1024 raised to the index of the defaultMeasure entry with the same
   * first letter ("KiB" and "KB" both give 1024^1), and tokens whose first
   * letter names no entry, such as "i", give 1024^0.
   */
  lemma MultiplierFollowsLadder(u: string)
    ensures CompileMeasuring(u) == Pow1024(LadderRank(u))
  {
    if u != "" {
      var c := u[0];
      assert ToLower(c) == 'k' <==> ToUpper(c) == 'K';
      assert ToLower(c) == 'm' <==> ToUpper(c) == 'M';
      assert ToLower(c) == 'g' <==> ToUpper(c) == 'G';
      assert ToLower(c) == 't' <==> ToUpper(c) == 'T';
      assert ToLower(c) == 'p' <==> ToUpper(c) == 'P';
      assert ToLower(c) == 'e' <==> ToUpper(c) == 'E';
    }
  }

  /**
   * Among the tokens of the unit grammar, exactly the empty token, the
   * byte words and a bare binary marker ("i", "I") have multiplier 1;
   * every token that starts with a prefix letter has a larger one.
   */
  lemma MultiplierOneTokens(u: string)
    requires MeasurePattern(u)
    ensures CompileMeasuring(u) == 1 <==> u in {"", "b", "B", "bytes", "Bytes", "i", "I"}
    ensures u != "" && IsPrefixLetter(u[0]) ==> CompileMeasuring(u) >= 1024
  {
    MeasurePatternIsUnitForm(u);
    if u != "" && IsPrefixLetter(u[0]) {
      assert ToLower(u[0]) in "kmgtpe";
    } else if u != "" {
      assert !(ToLower(u[0]) in "kmgtpe");
    }
  }
}
