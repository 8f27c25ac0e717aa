/** Floating-point values. Their binary value, rounding and shortest-form printing are not
    modelled: a float is identified by its decimal text, the text that `Display` for `f64`
    writes and that the reader hands to `<f64 as FromStr>`. */
module Floats {
  import opened Wrappers
  import Ints

  /** An `f64`, kept as its decimal text. */
  datatype Float = Float(text: string)

  /** The first index of `c1` or `c2` in `s`, or `|s|` when neither occurs. */
  function Find(s: string, c1: char, c2: char): (k: nat)
    ensures k <= |s|
    ensures forall i :: 0 <= i < k ==> s[i] != c1 && s[i] != c2
    ensures k < |s| ==> s[k] == c1 || s[k] == c2
  {
    if |s| == 0 then 0
    else if s[0] == c1 || s[0] == c2 then 0
    else 1 + Find(s[1..], c1, c2)
  }

  function Lower(c: char): char {
    if 'A' <= c <= 'Z' then (c as int + 32) as char else c
  }

  function LowerAll(s: string): (r: string)
    ensures |r| == |s|
  {
    if |s| == 0 then "" else [Lower(s[0])] + LowerAll(s[1..])
  }

  /** `inf`, `infinity` and `nan`, in any letter case. */
  predicate SpecialValue(s: string) {
    var l := LowerAll(s);
    l == "inf" || l == "infinity" || l == "nan"
  }

  /** Digits with at most one `.`, at least one digit in all, then optionally `e` or `E`,
      an optional sign and at least one digit. */
  predicate DecimalNumber(s: string) {
    var e := Find(s, 'e', 'E');
    var mantissa := s[..e];
    var d := Find(mantissa, '.', '.');
    var whole := mantissa[..d];
    var fraction := if d < |mantissa| then mantissa[d + 1..] else "";
    Ints.AllDigits(whole) && Ints.AllDigits(fraction) && |whole| + |fraction| > 0 &&
    (e == |s| || (|Ints.StripSign(s[e + 1..])| > 0 && Ints.AllDigits(Ints.StripSign(s[e + 1..]))))
  }

  /** The text `<f64 as FromStr>::from_str` accepts: an optional sign, then a decimal
      number or one of the special values. */
  predicate F64Syntax(s: string) {
    var body := Ints.StripSign(s);
    SpecialValue(body) || DecimalNumber(body)
  }

  /** `s.parse::<f64>()`: the float a text denotes, or nothing. */
  function ParseF64(s: string): (r: Option<Float>)
    ensures r.Some? <==> F64Syntax(s)
    ensures r.Some? ==> r.value.text == s
  {
    if F64Syntax(s) then Some(Float(s)) else None
  }

  /** The decimal forms of the floats written in the serializer tests parse. */
  lemma ParseF64Decimals()
    ensures ParseF64("13.1") == Some(Float("13.1")) && ParseF64("17.4") == Some(Float("17.4"))
  {
    PointNumber("13", "1");
    assert "13" + "." + "1" == "13.1";
    PointNumber("17", "4");
    assert "17" + "." + "4" == "17.4";
  }

  /** A signed mantissa with an exponent parses. */
  lemma ParseF64Exponent()
    ensures ParseF64("-2.5e3") == Some(Float("-2.5e3"))
  {
    var s := "-" + ("2" + "." + "5" + "e" + "3");
    assert ParseF64(s) == Some(Float(s)) by {
      assert Ints.AllDigits("2") && Ints.AllDigits("5") && Ints.AllDigits("3");
      NegativeExponentNumber("2", "5", "3");
    }
    assert s == "-2.5e3";
  }

  /** `NaN` is one of the special values. */
  lemma ParseF64NaN()
    ensures ParseF64("NaN") == Some(Float("NaN"))
  {
    assert Ints.StripSign("NaN") == "NaN";
    assert LowerAll("NaN") == "nan" by {
      assert "NaN"[1..] == "aN" && "aN"[1..] == "N" && "N"[1..] == "";
    }
  }

  /** Text with two points, or with no digit, does not parse. */
  lemma ParseF64Rejects()
    ensures ParseF64("1.2.3") == None && ParseF64(".") == None && ParseF64("") == None
  {
    TwoPoints();
    LonePoint();
    NoText();
  }

  lemma NoText()
    ensures !F64Syntax("")
  {
    assert LowerAll("") == "";
  }

  lemma TwoPoints()
    ensures !F64Syntax("1.2.3")
  {
    assert "1.2.3" == "1" + "." + "2.3" && Ints.AllDigits("1") && NumberChars("2.3");
    PointMantissa("1", "2.3");
    NotSpecial("1.2.3");
    assert !Ints.IsDigit("2.3"[1]);
  }

  lemma LonePoint()
    ensures !F64Syntax(".")
  {
    assert Ints.StripSign(".") == "." && Find(".", 'e', 'E') == 1 && "."[..1] == ".";
    assert Find(".", '.', '.') == 0 && "."[1..] == "";
    assert LowerAll(".")[0] == '.';
  }

  /** Digits, a point and digits parse as themselves. */
  lemma PointNumber(w: string, f: string)
    requires |w| > 0 && Ints.AllDigits(w) && Ints.AllDigits(f)
    ensures ParseF64(w + "." + f) == Some(Float(w + "." + f))
  {
    PointMantissa(w, f);
    NotSpecial(w + "." + f);
  }

  /** Minus, digits, a point, digits, `e` and digits parse as themselves. */
  lemma NegativeExponentNumber(w: string, f: string, x: string)
    requires |w| > 0 && Ints.AllDigits(w) && Ints.AllDigits(f)
    requires |x| > 0 && Ints.AllDigits(x)
    ensures var s := "-" + (w + "." + f + "e" + x);
      ParseF64(s) == Some(Float(s))
  {
    var m := w + "." + f;
    PointMantissa(w, f);
    assert forall i :: 0 <= i < |m| ==> m[i] != 'e' && m[i] != 'E';
    ExponentSplit(m, x);
    var t := m + "e" + x;
    assert ("-" + t)[1..] == t;
    assert Ints.StripSign("-" + t) == t;
    assert Ints.StripSign(x) == x by {
      assert x[0] != '+' && x[0] != '-';
    }
    assert DecimalNumber(t);
  }

  /** Digits and points only. */
  predicate NumberChars(s: string) {
    forall i :: 0 <= i < |s| ==> Ints.IsDigit(s[i]) || s[i] == '.'
  }

  /** How `DecimalNumber` cuts digits, a point and more digits or points: no
      exponent, the whole part before the first point, the rest after it. */
  lemma PointMantissa(w: string, f: string)
    requires |w| > 0 && Ints.AllDigits(w) && NumberChars(f)
    ensures var m := w + "." + f;
      Ints.IsDigit(m[0]) && Find(m, 'e', 'E') == |m| && Find(m, '.', '.') == |w| &&
      m[..|m|] == m && m[..|w|] == w && m[|w| + 1..] == f
  {
    var m := w + "." + f;
    assert m[..|w|] == w && m[|w| + 1..] == f;
    forall i | 0 <= i < |m| ensures m[i] != 'e' && m[i] != 'E' {
      if i < |w| {
        assert m[i] == w[i];
      } else if i > |w| {
        assert m[i] == f[i - |w| - 1];
      }
    }
    forall i | 0 <= i < |w| ensures m[i] != '.' {
      assert m[i] == w[i];
    }
    assert m[|w|] == '.';
    assert m[0] == w[0];
  }

  /** A mantissa without `e` followed by `e` and the exponent is cut at that `e`. */
  lemma ExponentSplit(m: string, x: string)
    requires forall i :: 0 <= i < |m| ==> m[i] != 'e' && m[i] != 'E'
    ensures var t := m + "e" + x;
      Find(t, 'e', 'E') == |m| && t[..|m|] == m && t[|m| + 1..] == x
  {
    var t := m + "e" + x;
    assert t[..|m|] == m && t[|m| + 1..] == x;
    forall i | 0 <= i < |m| ensures t[i] != 'e' && t[i] != 'E' {
      assert t[i] == m[i];
    }
    FindIs(t, 'e', 'E', |m|);
  }

  /** `Find` is the first position holding either character. */
  lemma FindIs(s: string, c1: char, c2: char, k: nat)
    requires k <= |s|
    requires forall i :: 0 <= i < k ==> s[i] != c1 && s[i] != c2
    requires k < |s| ==> s[k] == c1 || s[k] == c2
    ensures Find(s, c1, c2) == k
  {
  }

  /** Text starting with a digit is not a special value. */
  lemma NotSpecial(s: string)
    requires |s| > 0 && Ints.IsDigit(s[0])
    ensures !SpecialValue(s)
  {
    assert LowerAll(s)[0] == s[0];
  }
}
