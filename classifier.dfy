/**
 * Cells and the per-cell tests of the column cleaner: how a cell is
 * rendered as text, the NA sentinels, the numeric-like test and the
 * boolean tokens.
 */
module Classifier {
  import opened Wrappers
  import opened Strings

  /**
   * One value of a column. Null stands for every missing marker pandas
   * recognises (None, NaN, NaT, pd.NA); Int is a Python or numpy integer,
   * Num a float; Date holds a timestamp as an offset from the epoch.
   */
  datatype Cell = Null | Str(text: string) | Int(whole: int) | Num(number: real) | Bool(flag: bool) | Date(stamp: int)

  /**
   * The behaviour of library code the cleaner calls but does not define.
   * formatNumber and formatDate are str() on a float and on a Timestamp;
   * toNumber is pd.to_numeric(..., errors="coerce") on one cleaned string
   * (None where pandas yields NaN); toDate is
   * pd.to_datetime(..., errors="coerce", dayfirst=True) on one non-null,
   * non-timestamp cell (None where pandas yields NaT); dateRaises says that
   * pd.to_datetime raises for the column as a whole.
   */
  datatype Oracles = Oracles(
    formatNumber: real -> string,
    formatDate: int -> string,
    toNumber: string -> Option<real>,
    toDate: Cell -> Option<int>,
    dateRaises: seq<Cell> -> bool)

  /** str(v) for a cell; a missing value renders as "nan", as str(np.nan) does. */
  function Render(o: Oracles, v: Cell): string {
    match v
    case Null => "nan"
    case Str(s) => s
    case Int(i) => IntText(i)
    case Num(x) => o.formatNumber(x)
    case Bool(b) => if b then "True" else "False"
    case Date(d) => o.formatDate(d)
  }

  /** str(v).strip().lower(), the form in which a cell is compared with the token sets. */
  function Token(o: Oracles, v: Cell): string {
    Lower(Strip(Render(o, v)))
  }

  /** NA_STRINGS */
  const NaStrings: set<string> := {"", "na", "n/a", "nan", "null", "none", "-", "--"}

  /** v.strip().lower() in NA_STRINGS */
  predicate IsNaText(s: string) {
    Lower(Strip(s)) in NaStrings
  }

  // ---------------------------------------------------------------------
  // The pattern [-+]?\d*(?:\.\d+)? under re.fullmatch

  predicate IsDigit(c: char) {
    '0' <= c <= '9'
  }

  predicate IsSign(c: char) {
    c == '+' || c == '-'
  }

  predicate AllDigits(s: string) {
    forall i :: 0 <= i < |s| ==> IsDigit(s[i])
  }

  /** Length of the longest all-digit prefix, as the greedy \d* consumes it. */
  function DigitRun(s: string): (n: nat)
    ensures n <= |s|
    ensures AllDigits(s[..n])
    ensures n < |s| ==> !IsDigit(s[n])
  {
    if s != [] && IsDigit(s[0]) then
      var n := 1 + DigitRun(s[1..]);
      assert s[..n] == [s[0]] + s[1..][..n - 1];
      n
    else 0
  }

  /** fullmatch of \d*(?:\.\d+)? by the greedy reading of the pattern. */
  predicate MatchesUnsigned(t: string) {
    var n := DigitRun(t);
    n == |t| || (t[n] == '.' && n + 1 < |t| && DigitRun(t[n + 1..]) == |t| - n - 1)
  }

  /** fullmatch of [-+]?\d*(?:\.\d+)? */
  predicate MatchesNumber(s: string) {
    if s != [] && IsSign(s[0]) then MatchesUnsigned(s[1..]) else MatchesUnsigned(s)
  }

  predicate IsSignPart(s: string) {
    s == [] || (|s| == 1 && IsSign(s[0]))
  }

  predicate IsFractionPart(s: string) {
    s == [] || (|s| >= 2 && s[0] == '.' && AllDigits(s[1..]))
  }

  /** The language of the pattern, stated as a split into sign, integer digits and fraction. */
  ghost predicate NumeralShape(s: string) {
    exists i, j :: 0 <= i <= j <= |s| && IsSignPart(s[..i]) && AllDigits(s[i..j]) && IsFractionPart(s[j..])
  }

  lemma DigitRunAll(s: string)
    requires AllDigits(s)
    ensures DigitRun(s) == |s|
  {
  }

  lemma MatchesUnsignedShape(t: string) returns (j: nat)
    requires MatchesUnsigned(t)
    ensures j <= |t| && AllDigits(t[..j]) && IsFractionPart(t[j..])
  {
    j := DigitRun(t);
    if j < |t| {
      var f := t[j + 1..];
      assert AllDigits(f[..DigitRun(f)]);
      assert f[..DigitRun(f)] == f;
      assert t[j..][1..] == f;
    }
  }

  lemma ShapeMatchesUnsigned(t: string, j: nat)
    requires j <= |t| && AllDigits(t[..j]) && IsFractionPart(t[j..])
    ensures MatchesUnsigned(t)
  {
    var n := DigitRun(t);
    if j == |t| {
      assert t[..j] == t;
      DigitRunAll(t);
    } else {
      assert t[j] == t[j..][0] == '.';
      assert n == j;
      assert t[j + 1..] == t[j..][1..];
      DigitRunAll(t[j + 1..]);
    }
  }

  lemma MatchesNumberShape(s: string) returns (i: nat, j: nat)
    requires MatchesNumber(s)
    ensures i <= j <= |s| && IsSignPart(s[..i]) && AllDigits(s[i..j]) && IsFractionPart(s[j..])
  {
    if s != [] && IsSign(s[0]) {
      var t := s[1..];
      var k := MatchesUnsignedShape(t);
      assert s[1..1 + k] == t[..k] && s[1 + k..] == t[k..];
      assert IsSignPart(s[..1]);
      i, j := 1, 1 + k;
    } else {
      var k := MatchesUnsignedShape(s);
      assert s[..0] == [] && s[0..k] == s[..k];
      i, j := 0, k;
    }
  }

  lemma ShapeMatchesNumber(s: string, i: nat, j: nat)
    requires i <= j <= |s| && IsSignPart(s[..i]) && AllDigits(s[i..j]) && IsFractionPart(s[j..])
    ensures MatchesNumber(s)
  {
    if i == 1 {
      assert IsSign(s[0]) by { assert s[..i][0] == s[0]; }
      var t := s[1..];
      assert t[..j - 1] == s[1..j] && t[j - 1..] == s[j..];
      ShapeMatchesUnsigned(t, j - 1);
    } else {
      // without a sign part, the first character is a digit or the fraction's point
      if j > 0 {
        assert IsDigit(s[0]) by { assert s[i..j][0] == s[0]; }
      } else if s != [] {
        assert s[0] == s[j..][0];
      }
      assert s[i..j] == s[..j];
      ShapeMatchesUnsigned(s, j);
    }
  }

  /** The greedy matcher accepts exactly the strings of the pattern's language. */
  lemma MatchesNumberIff(s: string)
    ensures MatchesNumber(s) <==> NumeralShape(s)
  {
    if MatchesNumber(s) {
      var i, j := MatchesNumberShape(s);
    }
    if NumeralShape(s) {
      var i, j :| 0 <= i <= j <= |s| && IsSignPart(s[..i]) && AllDigits(s[i..j]) && IsFractionPart(s[j..]);
      ShapeMatchesNumber(s, i, j);
    }
  }

  predicate HasDigit(s: string) {
    exists k :: 0 <= k < |s| && IsDigit(s[k])
  }

  /** Within the pattern's language, "", "+" and "-" are exactly the strings without a digit. */
  lemma ShapeWithoutDigit(s: string)
    requires NumeralShape(s)
    ensures s !in {"", "+", "-"} <==> HasDigit(s)
  {
    var i, j :| 0 <= i <= j <= |s| && IsSignPart(s[..i]) && AllDigits(s[i..j]) && IsFractionPart(s[j..]);
    if j > i {
      assert IsDigit(s[i]) by { assert s[i..j][0] == s[i]; }
      assert s[i] != '+' && s[i] != '-';
    } else if j < |s| {
      assert IsDigit(s[j + 1]) by { assert s[j..][1..][0] == s[j + 1]; }
      assert |s| >= 2;
    } else {
      assert s == s[..i];
      if i == 1 {
        assert s == [s[0]];
        assert s == "+" || s == "-";
      }
    }
  }

  predicate IsSeparator(c: char) {
    c == ',' || c == ' '
  }

  /** s.replace(",", "").replace(" ", "") */
  function RemoveSeparators(s: string): (r: string)
    ensures ',' !in r && ' ' !in r
    ensures forall d :: !IsSeparator(d) ==> multiset(r)[d] == multiset(s)[d]
  {
    var r := Without(Without(s, ','), ' ');
    assert multiset(r)[','] == multiset(Without(s, ','))[','] == 0;
    r
  }

  /**
   * Removing the separators works character by character and keeps the
   * order: a separator is dropped and every other character is kept.
   */
  lemma RemoveSeparatorsSpec(a: string, b: string, d: char)
    ensures RemoveSeparators(a + b) == RemoveSeparators(a) + RemoveSeparators(b)
    ensures RemoveSeparators([d]) == if IsSeparator(d) then [] else [d]
  {
    WithoutConcat(a, b, ',');
    WithoutConcat(Without(a, ','), Without(b, ','), ' ');
  }

  /**
   * _is_numeric_like; None stands for a Python None argument. A value is
   * numeric-like iff it is text that is an NA sentinel, or that, trimmed and
   * without separators, matches the pattern and holds a digit.
   */
  predicate IsNumericLike(v: Option<string>)
    ensures IsNumericLike(v) <==> (v.Some? && (IsNaText(v.value) ||
      (MatchesNumber(RemoveSeparators(Strip(v.value))) && HasDigit(RemoveSeparators(Strip(v.value))))))
  {
    match v
    case None => false
    case Some(x) =>
      var s := Strip(x);
      if Lower(s) in NaStrings then true
      else
        var t := RemoveSeparators(s);
        MatchedDigit(t);
        MatchesNumber(t) && t !in {"", "+", "-"}
  }

  /** A match of the pattern holds a digit iff it is not one of the three matches without one. */
  lemma MatchedDigit(t: string)
    ensures MatchesNumber(t) ==> (HasDigit(t) <==> t !in {"", "+", "-"})
  {
    if MatchesNumber(t) {
      MatchesNumberIff(t);
      ShapeWithoutDigit(t);
    }
  }

  /** A missing value is not numeric-like; an NA sentinel, in any case and padding, is. */
  lemma NumericLikeNa(x: string)
    ensures !IsNumericLike(None)
    ensures IsNaText(x) ==> IsNumericLike(Some(x))
  {
  }

  /**
   * Any other text is numeric-like exactly when, after stripping and
   * removing "," and " ", it is a numeral of the pattern that holds at
   * least one digit.
   */
  lemma NumericLikeIff(x: string)
    requires !IsNaText(x)
    ensures var t := RemoveSeparators(Strip(x));
      IsNumericLike(Some(x)) <==> NumeralShape(t) && HasDigit(t)
  {
    var t := RemoveSeparators(Strip(x));
    MatchesNumberIff(t);
    if NumeralShape(t) {
      ShapeWithoutDigit(t);
    }
  }

  /** The boolean tokens of _maybe_convert_to_boolean. */
  const Truthy: set<string> := {"true", "yes", "y", "1"}
  const Falsy: set<string> := {"false", "no", "n", "0"}

  /** classify / map_to_bool_or_na: the flag a cell stands for; None for a missing or unknown cell. */
  function Classify(o: Oracles, v: Cell): (r: Option<bool>)
    ensures r.Some? ==> !v.Null?
    ensures r == Some(true) ==> Token(o, v) in Truthy
    ensures r == Some(false) ==> Token(o, v) in Falsy
  {
    if v.Null? then None
    else
      var t := Token(o, v);
      if t in Truthy then Some(true)
      else if t in Falsy then Some(false)
      else None
  }

  predicate IsBooleanLike(o: Oracles, v: Cell) {
    !v.Null? && (Token(o, v) in Truthy || Token(o, v) in Falsy)
  }

  /** A cell has a flag iff it is boolean-like; truthy tokens give true and falsy ones false. */
  lemma ClassifySpec(o: Oracles, v: Cell)
    ensures Classify(o, v).Some? <==> IsBooleanLike(o, v)
    ensures Classify(o, v) == Some(true) <==> !v.Null? && Token(o, v) in Truthy
    ensures Classify(o, v) == Some(false) <==> !v.Null? && Token(o, v) in Falsy
  {
    if !v.Null? {
      TokensDisjoint(Token(o, v));
    }
  }

  /** An integer's token is its decimal text: there is no whitespace to strip and no letter to lower. */
  lemma IntToken(o: Oracles, i: int)
    ensures Token(o, Int(i)) == IntText(i)
  {
    var s := IntText(i);
    IntTextShape(i);
    assert !IsSpace(s[0]) && !IsSpace(s[|s| - 1]);
    StripUnpadded(s);
  }

  /** Among integers, only 1 is a truthy token and only 0 a falsy one. */
  lemma IntTokens(o: Oracles, i: int)
    ensures Token(o, Int(i)) in Truthy <==> i == 1
    ensures Token(o, Int(i)) in Falsy <==> i == 0
  {
    IntToken(o, i);
    IntTextTokens(i);
  }

  lemma IntTextTokens(i: int)
    ensures IntText(i) in Truthy <==> i == 1
    ensures IntText(i) in Falsy <==> i == 0
  {
    var s := IntText(i);
    IntTextShape(i);
    IntTextDigit(i);
    assert s[0] != 't' && s[0] != 'y' && s[0] != 'f' && s[0] != 'n';
    assert s != "true" && s != "yes" && s != "y" && s != "false" && s != "no" && s != "n";
  }

  /** No token is both truthy and falsy. */
  lemma TokensDisjoint(t: string)
    ensures !(t in Truthy && t in Falsy)
  {
  }
}
