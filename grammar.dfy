/**
 * The two regular expressions of parser.go, written out as predicates on
 * strings: `measurePattern` (a unit token, possibly empty) and `sizePattern`
 * (a number followed by an optional unit token).  Both patterns are anchored
 * with `^...$`, so they accept or reject the whole string.
 */
module Grammar {

  /** `[bB]` */
  predicate IsByteLetter(c: char) { c == 'b' || c == 'B' }

  /** `[iI]` */
  predicate IsBinaryMarker(c: char) { c == 'i' || c == 'I' }

  /** `[kmgtpeKMGTPE]` */
  predicate IsPrefixLetter(c: char) { c in "kmgtpeKMGTPE" }

  /** `[0-9]` */
  predicate IsDigit(c: char) { '0' <= c <= '9' }

  /** A character that a number literal may contain. */
  predicate IsNumberChar(c: char) { IsDigit(c) || c == '.' }

  /**
   * `^([bB]|[bB]ytes|[kmgtpeKMGTPE]|[kmgtpeKMGTPE]?[iI]|[kmgtpeKMGTPE][iI]?[bB])?$`,
   * one disjunct per alternative; the optional letter and the optional `i`
   * each give two disjuncts.
   */
  predicate MeasurePattern(u: string): (r: bool)
    ensures r ==> |u| <= 5
    ensures r && u != "" ==> IsByteLetter(u[0]) || IsBinaryMarker(u[0]) || IsPrefixLetter(u[0])
  {
    || u == ""
    || (|u| == 1 && IsByteLetter(u[0]))
    || (|u| == 5 && IsByteLetter(u[0]) && u[1..] == "ytes")
    || (|u| == 1 && IsPrefixLetter(u[0]))
    || (|u| == 1 && IsBinaryMarker(u[0]))
    || (|u| == 2 && IsPrefixLetter(u[0]) && IsBinaryMarker(u[1]))
    || (|u| == 2 && IsPrefixLetter(u[0]) && IsByteLetter(u[1]))
    || (|u| == 3 && IsPrefixLetter(u[0]) && IsBinaryMarker(u[1]) && IsByteLetter(u[2]))
  }

  /** The tokens that stand for plain bytes. */
  const ByteWords: set<string> := {"b", "B", "bytes", "Bytes"}

  /** What may follow a prefix letter: nothing, an `i`, a `b`, or both. */
  const PrefixSuffixes: set<string> := {"", "i", "I", "b", "B", "ib", "iB", "Ib", "IB"}

  /**
   * The unit tokens described form by form rather than alternative by
   * alternative: empty, a byte word, a lone binary marker, or a prefix
   * letter followed by one of the PrefixSuffixes.
   */
  predicate UnitForm(u: string) {
    || u == ""
    || u in ByteWords
    || u in {"i", "I"}
    || (|u| >= 1 && IsPrefixLetter(u[0]) && u[1..] in PrefixSuffixes)
  }

  /** The alternation of the pattern and the list of forms accept the same tokens. */
  lemma MeasurePatternIsUnitForm(u: string)
    ensures MeasurePattern(u) <==> UnitForm(u)
  {
    if |u| >= 1 && IsPrefixLetter(u[0]) && u[1..] in PrefixSuffixes {
      var t := u[1..];
      assert |u| == 1 + |t|;
      if |t| >= 1 { assert u[1] == t[0]; }
      if |t| == 2 { assert u[2] == t[1]; }
    }
    if u in ByteWords && |u| == 5 {
      assert u[1..] == "ytes";
    }
    if MeasurePattern(u) && u != "" {
      if |u| == 1 {
        assert u == [u[0]];
        assert u[1..] == "";
      } else if |u| == 5 {
        assert u == [u[0]] + u[1..] && u[1..] == "ytes";
        if u[0] == 'b' { assert u == "bytes"; } else { assert u == "Bytes"; }
      } else if |u| == 2 {
        assert u[1..] == [u[1]];
      } else {
        assert u[1..] == [u[1], u[2]];
      }
    }
  }

  /** No unit token starts with a character that a number may contain. */
  lemma TokenStartsWithLetter(u: string)
    requires MeasurePattern(u) && u != ""
    ensures !IsNumberChar(u[0])
  {
  }

  predicate AllDigits(s: string) {
    forall i | 0 <= i < |s| :: IsDigit(s[i])
  }

  /** `[0-9]+` */
  predicate IntegerPattern(n: string) {
    |n| > 0 && AllDigits(n)
  }

  /** `[0-9]*\.[0-9]+`: digits, a dot at some index j, and at least one digit after it. */
  predicate FractionPattern(n: string) {
    exists j | 0 <= j < |n| :: n[j] == '.' && AllDigits(n[..j]) && IntegerPattern(n[j + 1..])
  }

  /** `[0-9]+|[0-9]*\.[0-9]+`: both forms end with a digit, so "5." is not a number. */
  predicate NumberPattern(n: string): (r: bool)
    ensures r ==> |n| > 0 && IsDigit(n[|n| - 1])
  {
    IntegerPattern(n) || FractionPattern(n)
  }

  /** `sizePattern`: the input is a number followed by a (possibly empty) unit token. */
  predicate SizePattern(s: string): (r: bool)
    ensures r ==> exists k | 1 <= k <= |s| :: IsDigit(s[k - 1]) && MeasurePattern(s[k..])
  {
    exists k | 0 <= k <= |s| :: NumberPattern(s[..k]) && MeasurePattern(s[k..])
  }

  /** Every character of a number literal is a digit or a dot. */
  lemma NumberChars(n: string)
    requires NumberPattern(n)
    ensures forall i | 0 <= i < |n| :: IsNumberChar(n[i])
  {
    if !IntegerPattern(n) {
      var j :| 0 <= j < |n| && n[j] == '.' && AllDigits(n[..j]) && IntegerPattern(n[j + 1..]);
      forall i | 0 <= i < |n| ensures IsNumberChar(n[i]) {
        if i < j { assert n[i] == n[..j][i]; }
        else if i > j { assert n[i] == n[j + 1..][i - j - 1]; }
      }
    }
  }

  /**
   * The length of the longest prefix made of digits and dots: where the
   * number literal of a size expression has to end.
   */
  function NumberEnd(s: string): (k: nat)
    ensures k <= |s|
    ensures forall i | 0 <= i < k :: IsNumberChar(s[i])
    ensures k < |s| ==> !IsNumberChar(s[k])
  {
    if s == [] || !IsNumberChar(s[0]) then 0 else 1 + NumberEnd(s[1..])
  }

  /**
   * A size expression splits into number and unit token in at most one
   * way: the number ends exactly at NumberEnd.
   */
  lemma SplitIsUnique(s: string, k: nat)
    requires k <= |s|
    requires NumberPattern(s[..k]) && MeasurePattern(s[k..])
    ensures k == NumberEnd(s)
  {
    NumberChars(s[..k]);
    assert forall i | 0 <= i < k :: s[i] == s[..k][i];
    if k < |s| {
      TokenStartsWithLetter(s[k..]);
      assert s[k..][0] == s[k];
    }
  }

  /** sizePattern holds exactly when the split at NumberEnd gives a number and a unit token. */
  lemma SizePatternAtNumberEnd(s: string)
    ensures SizePattern(s) <==>
      NumberPattern(s[..NumberEnd(s)]) && MeasurePattern(s[NumberEnd(s)..])
  {
    if SizePattern(s) {
      var k :| 0 <= k <= |s| && NumberPattern(s[..k]) && MeasurePattern(s[k..]);
      SplitIsUnique(s, k);
    }
  }
}
