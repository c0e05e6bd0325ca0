/**
 * `extractNumber` of the location page: the numeric tokens that the global
 * regular expression `(\d+(\.\d+)?)` finds in a free-text area size such as
 * "12.5 acres", read left to right, each converted with `Number`.
 */
module AreaSize {

  import opened Wrappers

  predicate IsDigit(c: char)
  {
    '0' <= c <= '9'
  }

  predicate AllDigits(s: string)
  {
    forall i :: 0 <= i < |s| ==> IsDigit(s[i])
  }

  predicate HasDigit(s: string)
  {
    exists i :: 0 <= i < |s| && IsDigit(s[i])
  }

  /**
   * A string that the pattern `\d+(\.\d+)?` matches as a whole: a run of
   * digits that either ends the string or is followed by `.` and a second
   * run of digits that does.
   */
  predicate IsNumeral(t: string)
  {
    var n := DigitRun(t);
    && 0 < n
    && (n == |t| || (n + 1 < |t| && t[n] == '.' && DigitRun(t[n + 1..]) == |t| - n - 1))
  }

  /** Length of the longest run of digits at the front of `s` (what greedy `\d+` takes). */
  function DigitRun(s: string): (n: nat)
    ensures n <= |s|
  {
    if s != [] && IsDigit(s[0]) then 1 + DigitRun(s[1..]) else 0
  }

  /** The run is all digits and cannot be extended: greedy `\d+`. */
  lemma {:induction false} DigitRunIsMaximal(s: string)
    ensures AllDigits(s[..DigitRun(s)])
    ensures DigitRun(s) < |s| ==> !IsDigit(s[DigitRun(s)])
  {
    if s != [] && IsDigit(s[0]) {
      DigitRunIsMaximal(s[1..]);
      var n := DigitRun(s);
      assert forall i :: 1 <= i < n ==> s[..n][i] == s[1..][..n - 1][i - 1];
    }
  }

  /**
   * Where the match that starts at the digit `s[0]` ends: the digit run,
   * extended by `.` and a second digit run when a digit follows the `.`.
   */
  function TokenEnd(s: string): (m: nat)
    requires s != [] && IsDigit(s[0])
    ensures 0 < m <= |s|
  {
    var n := DigitRun(s);
    if n + 1 < |s| && s[n] == '.' && IsDigit(s[n + 1]) then n + 1 + DigitRun(s[n + 1..]) else n
  }

  /** What one match covers is a numeral. */
  lemma TokenIsNumeral(s: string)
    requires s != [] && IsDigit(s[0])
    ensures IsNumeral(s[..TokenEnd(s)])
  {
    var n := DigitRun(s);
    var m := TokenEnd(s);
    DigitRunIsMaximal(s);
    var whole := s[..n];
    if n + 1 < |s| && s[n] == '.' && IsDigit(s[n + 1]) {
      DigitRunIsMaximal(s[n + 1..]);
      var frac := s[n + 1..][..m - n - 1];
      assert s[..m] == whole + "." + frac;
      NumeralOfParts(whole, frac);
    } else {
      assert s[..m] == whole;
      NumeralOfParts(whole, "");
    }
  }

  /** The digit run of a prefix is the part of the whole run that the prefix holds. */
  lemma {:induction false} DigitRunOfPrefix(s: string, k: nat)
    requires k <= |s|
    ensures DigitRun(s[..k]) == if DigitRun(s) < k then DigitRun(s) else k
  {
    if k > 0 && IsDigit(s[0]) {
      DigitRunOfPrefix(s[1..], k - 1);
      assert s[..k][1..] == s[1..][..k - 1];
    }
  }

  /**
   * The match is the longest numeral at the front of `s`, as the greedy
   * pattern takes it; in particular a `.` that no digit follows is not
   * part of the match.
   */
  lemma TokenIsLongest(s: string, k: nat)
    requires s != [] && IsDigit(s[0])
    requires TokenEnd(s) < k <= |s|
    ensures !IsNumeral(s[..k])
  {
    var n := DigitRun(s);
    var t := s[..k];
    DigitRunOfPrefix(s, k);
    assert DigitRun(t) == n;
    if n + 1 < k && t[n] == '.' {
      var rest := s[n + 1..];
      assert t[n + 1..] == rest[..k - n - 1];
      DigitRunOfPrefix(rest, k - n - 1);
      if IsDigit(s[n + 1]) {
        assert DigitRun(t[n + 1..]) < k - n - 1;
      } else {
        assert DigitRun(t[n + 1..]) == 0;
      }
    }
  }

  /** `s.match(/(\d+(\.\d+)?)/g)`, with no match read as the empty list. */
  function Tokens(s: string): (ts: seq<string>)
    ensures forall i :: 0 <= i < |ts| ==> IsNumeral(ts[i])
    decreases |s|
  {
    if s == [] then []
    else if IsDigit(s[0]) then
      var m := TokenEnd(s);
      TokenIsNumeral(s);
      [s[..m]] + Tokens(s[m..])
    else
      Tokens(s[1..])
  }

  /** No token is found exactly when the text has no digit. */
  lemma {:induction false} NoTokensIffNoDigit(s: string)
    ensures Tokens(s) == [] <==> !HasDigit(s)
    decreases |s|
  {
    if s != [] && !IsDigit(s[0]) {
      NoTokensIffNoDigit(s[1..]);
      if HasDigit(s) {
        var i :| 0 <= i < |s| && IsDigit(s[i]);
        assert IsDigit(s[1..][i - 1]);
      }
      if HasDigit(s[1..]) {
        var i :| 0 <= i < |s[1..]| && IsDigit(s[1..][i]);
        assert IsDigit(s[i + 1]);
      }
    } else if s != [] {
      assert IsDigit(s[0]);
    }
  }

  /** The digits of a string, in order, with everything else dropped. */
  function DigitsOf(s: string): string
  {
    if s == [] then [] else DigitPart(s[0]) + DigitsOf(s[1..])
  }

  function DigitPart(c: char): string
  {
    if IsDigit(c) then [c] else []
  }

  lemma {:induction false} DigitsOfAppend(a: string, b: string)
    ensures DigitsOf(a + b) == DigitsOf(a) + DigitsOf(b)
  {
    if a == [] {
      assert a + b == b;
    } else {
      var ab := a + b;
      assert ab[0] == a[0];
      assert ab[1..] == a[1..] + b;
      DigitsOfAppend(a[1..], b);
      calc {
        DigitsOf(ab);
        DigitPart(a[0]) + DigitsOf(a[1..] + b);
        DigitPart(a[0]) + (DigitsOf(a[1..]) + DigitsOf(b));
        (DigitPart(a[0]) + DigitsOf(a[1..])) + DigitsOf(b);
      }
    }
  }

  function Flatten(ts: seq<string>): string
  {
    if ts == [] then [] else ts[0] + Flatten(ts[1..])
  }

  /**
   * The tokens, read one after another, contain every digit of the text in
   * its original order: no digit is lost, duplicated or reordered.
   */
  lemma {:induction false} TokensKeepEveryDigit(s: string)
    ensures DigitsOf(Flatten(Tokens(s))) == DigitsOf(s)
    decreases |s|
  {
    if s != [] {
      if IsDigit(s[0]) {
        var m := TokenEnd(s);
        TokensKeepEveryDigit(s[m..]);
        DigitsAfterToken(s);
      } else {
        DigitsAfterNonDigit(s);
        TokensKeepEveryDigit(s[1..]);
      }
    }
  }

  lemma DigitsAfterNonDigit(s: string)
    requires s != [] && !IsDigit(s[0])
    ensures Tokens(s) == Tokens(s[1..])
    ensures DigitsOf(s) == DigitsOf(s[1..])
  {
    assert DigitPart(s[0]) == [];
  }

  lemma DigitsAfterToken(s: string)
    requires s != [] && IsDigit(s[0])
    requires DigitsOf(Flatten(Tokens(s[TokenEnd(s)..]))) == DigitsOf(s[TokenEnd(s)..])
    ensures DigitsOf(Flatten(Tokens(s))) == DigitsOf(s)
  {
    var m := TokenEnd(s);
    FlattenFirstToken(s);
    DigitsOfSameTail(s[..m], Flatten(Tokens(s[m..])), s[m..]);
    SplitJoin(s, m);
  }

  /** Swapping a tail for one with the same digits keeps the digits of the whole. */
  lemma DigitsOfSameTail(head: string, tail: string, tail': string)
    requires DigitsOf(tail) == DigitsOf(tail')
    ensures DigitsOf(head + tail) == DigitsOf(head + tail')
  {
    DigitsOfAppend(head, tail);
    DigitsOfAppend(head, tail');
  }

  lemma SplitJoin(s: string, m: nat)
    requires m <= |s|
    ensures s[..m] + s[m..] == s
  {
  }

  /** The flattened tokens of a text that starts with a digit begin with the first match. */
  lemma FlattenFirstToken(s: string)
    requires s != [] && IsDigit(s[0])
    ensures Flatten(Tokens(s)) == s[..TokenEnd(s)] + Flatten(Tokens(s[TokenEnd(s)..]))
  {
    var m := TokenEnd(s);
    var ts := Tokens(s);
    assert ts == [s[..m]] + Tokens(s[m..]);
    assert ts[0] == s[..m] && ts[1..] == Tokens(s[m..]);
  }

  /** The tokens written out, each followed by one space. */
  function Spaced(ts: seq<string>): string
  {
    if ts == [] then [] else ts[0] + " " + Spaced(ts[1..])
  }

  lemma {:induction false} DigitRunStopsAtNonDigit(a: string, b: string)
    requires AllDigits(a)
    requires b != [] && !IsDigit(b[0])
    ensures DigitRun(a + b) == |a|
  {
    if a != [] {
      assert (a + b)[1..] == a[1..] + b;
      DigitRunStopsAtNonDigit(a[1..], b);
    }
  }

  lemma {:induction false} DigitRunOfDigits(a: string)
    requires AllDigits(a)
    ensures DigitRun(a) == |a|
  {
    if a != [] {
      DigitRunOfDigits(a[1..]);
    }
  }

  /** A digit run, or a digit run, `.` and a digit run, is a numeral. */
  lemma NumeralOfParts(whole: string, frac: string)
    requires |whole| > 0 && AllDigits(whole) && AllDigits(frac)
    ensures IsNumeral(whole)
    ensures |frac| > 0 ==> IsNumeral(whole + "." + frac)
  {
    DigitRunOfDigits(whole);
    if |frac| > 0 {
      var t := whole + "." + frac;
      assert t == whole + ("." + frac);
      DigitRunStopsAtNonDigit(whole, "." + frac);
      assert t[|whole| + 1..] == frac;
      DigitRunOfDigits(frac);
    }
  }

  /** The digit run of a numeral ends the numeral or stops at its `.`, followed by digits. */
  lemma NumeralSplit(t: string)
    requires IsNumeral(t)
    ensures 0 < DigitRun(t)
    ensures var n := DigitRun(t);
            n == |t| || (n + 1 < |t| && t[n] == '.' && AllDigits(t[n + 1..]))
  {
    var n := DigitRun(t);
    if n < |t| {
      var frac := t[n + 1..];
      assert DigitRun(frac) == |frac|;
      DigitRunIsMaximal(frac);
      assert frac[..|frac|] == frac;
    }
  }

  /** The match starting at a digit run that is not followed by `.` and a digit is that run. */
  lemma TokenEndAtRun(s: string, n: nat)
    requires 0 < n < |s| && AllDigits(s[..n]) && s[n] != '.' && !IsDigit(s[n])
    ensures IsDigit(s[0]) && TokenEnd(s) == n
  {
    assert s == s[..n] + s[n..];
    DigitRunStopsAtNonDigit(s[..n], s[n..]);
    assert IsDigit(s[..n][0]);
  }

  /** The match starting at `digits . digits` followed by a non-digit takes all of it. */
  lemma TokenEndAtFraction(s: string, n: nat, m: nat)
    requires 0 < n && n + 1 < m < |s|
    requires AllDigits(s[..n]) && s[n] == '.' && AllDigits(s[n + 1..m]) && !IsDigit(s[m])
    ensures IsDigit(s[0]) && TokenEnd(s) == m
  {
    assert s == s[..n] + s[n..];
    DigitRunStopsAtNonDigit(s[..n], s[n..]);
    assert IsDigit(s[..n][0]);
    var after := s[n + 1..];
    assert after == s[n + 1..m] + s[m..];
    DigitRunStopsAtNonDigit(s[n + 1..m], s[m..]);
    assert IsDigit(s[n + 1..m][0]);
  }

  /** A numeral followed by a space is taken whole as one match. */
  lemma TokenEndOfNumeral(t: string, rest: string)
    requires IsNumeral(t)
    ensures t + " " + rest != [] && IsDigit((t + " " + rest)[0])
    ensures TokenEnd(t + " " + rest) == |t|
  {
    var s := t + " " + rest;
    NumeralSplit(t);
    DigitRunIsMaximal(t);
    var n := DigitRun(t);
    assert s[..|t|] == t;
    assert s[|t|] == ' ';
    if n == |t| {
      TokenEndAtRun(s, n);
    } else {
      assert s[..n] == t[..n];
      assert s[n + 1..|t|] == t[n + 1..];
      TokenEndAtFraction(s, n, |t|);
    }
  }

  /** A numeral and a space at the front of a text are its first match, and the scan resumes after the space. */
  lemma TokensAfterNumeral(t: string, rest: string)
    requires IsNumeral(t)
    ensures Tokens(t + " " + rest) == [t] + Tokens(rest)
  {
    var s := t + " " + rest;
    TokenEndOfNumeral(t, rest);
    var m := |t|;
    assert s[..m] == t;
    assert s[m..] == " " + rest;
    assert (" " + rest)[1..] == rest;
  }

  /**
   * Round trip: numerals separated by spaces are found again, each in full
   * and in order. In particular a token never stops before the end of its
   * digit run or its fraction.
   */
  lemma {:induction false} TokensOfSpaced(ts: seq<string>)
    requires forall i :: 0 <= i < |ts| ==> IsNumeral(ts[i])
    ensures Tokens(Spaced(ts)) == ts
  {
    if ts != [] {
      TokensAfterNumeral(ts[0], Spaced(ts[1..]));
      TokensOfSpaced(ts[1..]);
      assert ts == [ts[0]] + ts[1..];
    }
  }

  /** The value of a run of decimal digits. */
  function DigitsValue(s: string): (v: nat)
    requires AllDigits(s)
  {
    if s == [] then 0
    else DigitsValue(s[..|s| - 1]) * 10 + (s[|s| - 1] as int - '0' as int)
  }

  function Pow10(n: nat): (p: nat)
    ensures p >= 1
  {
    if n == 0 then 1 else 10 * Pow10(n - 1)
  }

  /** The exact quotient `num / den`. */
  function Fraction(num: nat, den: nat): (q: real)
    requires den > 0
    ensures 0.0 <= q
  {
    num as real / den as real
  }

  /** `Number(t)` for a numeral `t`, computed exactly rather than as a double. */
  function NumeralValue(t: string): (v: real)
    requires IsNumeral(t)
    ensures v >= 0.0
  {
    NumeralSplit(t);
    DigitRunIsMaximal(t);
    var n := DigitRun(t);
    if n == |t| then
      DigitsValue(t) as real
    else
      var frac := t[n + 1..];
      DigitsValue(t[..n]) as real + Fraction(DigitsValue(frac), Pow10(|frac|))
  }

  /** Appending digits shifts the value one decimal place left per appended digit. */
  lemma {:induction false} DigitsValueAppend(w: string, f: string)
    requires AllDigits(w) && AllDigits(f)
    ensures AllDigits(w + f)
    ensures DigitsValue(w + f) == DigitsValue(w) * Pow10(|f|) + DigitsValue(f)
    decreases |f|
  {
    var wf := w + f;
    if f == [] {
      assert wf == w;
    } else {
      var f' := f[..|f| - 1];
      assert wf[..|wf| - 1] == w + f';
      assert wf[|wf| - 1] == f[|f| - 1];
      DigitsValueAppend(w, f');
      var d := f[|f| - 1] as int - '0' as int;
      assert DigitsValue(wf) == DigitsValue(w + f') * 10 + d;
      assert DigitsValue(f) == DigitsValue(f') * 10 + d;
      ShiftDigit(DigitsValue(w), Pow10(|f'|), DigitsValue(f'), d);
    }
  }

  /** Appending digit `d` to `a * p + b` multiplies the scale `p` by ten. */
  lemma ShiftDigit(a: nat, p: nat, b: nat, d: int)
    ensures (a * p + b) * 10 + d == a * (10 * p) + (b * 10 + d)
  {
  }

  /** `Number` of a numeral without a fraction is the integer its digits spell. */
  lemma NumeralValueOfWhole(w: string)
    requires |w| > 0 && AllDigits(w)
    ensures IsNumeral(w)
    ensures NumeralValue(w) == DigitsValue(w) as real
  {
    NumeralOfParts(w, "");
    DigitRunOfDigits(w);
  }

  /** A numeral whose digit run stops at `n` is worth the digits before `n` plus the fraction after `n + 1`. */
  lemma NumeralValueAtPoint(t: string, n: nat)
    requires IsNumeral(t) && n == DigitRun(t) && n < |t|
    ensures n + 1 < |t| && AllDigits(t[..n]) && AllDigits(t[n + 1..])
    ensures NumeralValue(t) == DigitsValue(t[..n]) as real + Fraction(DigitsValue(t[n + 1..]), Pow10(|t| - n - 1))
  {
    NumeralSplit(t);
    DigitRunIsMaximal(t);
  }

  /** `Number` of `w.f` is the whole part plus the fraction digits over their scale. */
  lemma NumeralValueParts(w: string, f: string)
    requires |w| > 0 && AllDigits(w) && |f| > 0 && AllDigits(f)
    ensures IsNumeral(w + "." + f)
    ensures NumeralValue(w + "." + f) == DigitsValue(w) as real + Fraction(DigitsValue(f), Pow10(|f|))
  {
    PointSplit(w, f);
    NumeralValueAtPoint(w + "." + f, |w|);
  }

  /** In `w.f` the digit run is `w`, and the text after the point is `f`. */
  lemma PointSplit(w: string, f: string)
    requires |w| > 0 && AllDigits(w) && |f| > 0 && AllDigits(f)
    ensures IsNumeral(w + "." + f) && DigitRun(w + "." + f) == |w|
    ensures (w + "." + f)[..|w|] == w && (w + "." + f)[|w| + 1..] == f
  {
    NumeralOfParts(w, f);
    PointPieces(w, f);
    DigitRunStopsAtNonDigit(w, "." + f);
  }

  lemma PointPieces(w: string, f: string)
    ensures w + "." + f == w + ("." + f)
    ensures (w + "." + f)[..|w|] == w && (w + "." + f)[|w| + 1..] == f
  {
    var t := w + "." + f;
    assert t == w + ("." + f);
    assert t[..|w|] == w;
    assert t[|w| + 1..] == f;
  }

  /** A whole part plus a fraction over `p` is one fraction over `p`. */
  lemma FractionOfSum(a: nat, b: nat, p: nat)
    requires p > 0
    ensures a as real + Fraction(b, p) == Fraction(a * p + b, p)
  {
    assert (a * p + b) as real == a as real * p as real + b as real;
  }

  /**
   * `Number` reads a decimal positionally: the value of `w.f` is the integer
   * the digits of `w` and `f` spell together, over ten to the number of
   * fraction digits.
   */
  lemma NumeralValueOfFraction(w: string, f: string)
    requires |w| > 0 && AllDigits(w) && |f| > 0 && AllDigits(f)
    ensures IsNumeral(w + "." + f) && AllDigits(w + f)
    ensures NumeralValue(w + "." + f) == Fraction(DigitsValue(w + f), Pow10(|f|))
  {
    NumeralValueParts(w, f);
    DigitsValueAppend(w, f);
    FractionOfSum(DigitsValue(w), DigitsValue(f), Pow10(|f|));
  }

  /** "12.5" reads as 12.5. */
  lemma NumeralValueTwelveAndAHalf()
    ensures IsNumeral("12.5") && NumeralValue("12.5") == 12.5
  {
    NumeralValueOfFraction("12", "5");
    assert "12" + "." + "5" == "12.5";
    assert "12" + "5" == "125";
    assert DigitsValue("125") == 125 by {
      assert "125"[..2] == "12" && "12"[..1] == "1" && "1"[..0] == "";
    }
    assert Pow10(|"5"|) == 10;
  }

  /** A trailing zero in the fraction changes nothing: "1.50" reads as 1.5. */
  lemma NumeralValueTrailingZero()
    ensures IsNumeral("1.50") && NumeralValue("1.50") == 1.5
  {
    NumeralValueOfFraction("1", "50");
    assert "1" + "." + "50" == "1.50";
    assert "1" + "50" == "150";
    assert DigitsValue("150") == 150 by {
      assert "150"[..2] == "15" && "15"[..1] == "1" && "1"[..0] == "";
    }
    assert Pow10(|"50"|) == 100;
  }

  /** Leading zeros change nothing: "007" reads as 7. */
  lemma NumeralValueLeadingZeros()
    ensures IsNumeral("007") && NumeralValue("007") == 7.0
  {
    NumeralValueOfWhole("007");
    assert DigitsValue("007") == 7 by {
      assert "007"[..2] == "00" && "00"[..1] == "0" && "0"[..0] == "";
    }
  }

  /** `extractNumber(str)`: the value of every token, in order. */
  function ExtractNumber(s: string): (r: seq<real>)
    ensures |r| == |Tokens(s)|
    ensures forall i :: 0 <= i < |r| ==> r[i] == NumeralValue(Tokens(s)[i])
    ensures r == [] <==> !HasDigit(s)
  {
    NoTokensIffNoDigit(s);
    var ts := Tokens(s);
    seq(|ts|, i requires 0 <= i < |ts| => NumeralValue(ts[i]))
  }

  /**
   * `extractNumber(areaSize)[0]`, the land size handed to the crop view:
   * the first number in the text, or undefined when the text has no digit.
   */
  function LandSize(areaSize: string): (r: Option<real>)
    ensures r == None <==> !HasDigit(areaSize)
    ensures r.Some? ==> Tokens(areaSize) != [] && r.value == NumeralValue(Tokens(areaSize)[0]) && r.value >= 0.0
  {
    var numbers := ExtractNumber(areaSize);
    if numbers == [] then None else Some(numbers[0])
  }

  /** The land size of "12.5 acres" is 12.5: the first number, read in full. */
  lemma LandSizeExample()
    ensures LandSize("12.5 acres") == Some(12.5)
  {
    NumeralValueTwelveAndAHalf();
    TokensAfterNumeral("12.5", "acres");
    assert "12.5" + " " + "acres" == "12.5 acres";
    NoTokensIffNoDigit("acres");
    assert !HasDigit("acres");
  }
}
