/** `Int` from `openmath/src/int.rs`: an integer of arbitrary size kept either as an
    `i128` ("stack") or, when it does not fit, as its validated decimal text ("heap"). */
module Ints {
  import opened Wrappers

  const I128_MIN: int := -0x8000_0000_0000_0000_0000_0000_0000_0000
  const I128_MAX: int := 0x7FFF_FFFF_FFFF_FFFF_FFFF_FFFF_FFFF_FFFF

  /** The values of Rust's `i128`. */
  type I128 = v: int | I128_MIN <= v <= I128_MAX

  /** `Int` (and its representation `I`): `Stack(i128)` or `Heap(decimal text)`. */
  datatype Int = Stack(v: I128) | Heap(text: string)

  // ----- decimal text -------------------------------------------------------------

  predicate IsDigit(c: char) {
    '0' <= c <= '9'
  }

  predicate AllDigits(s: string) {
    forall i :: 0 <= i < |s| ==> IsDigit(s[i])
  }

  function DigitValue(c: char): (d: nat)
    requires IsDigit(c)
    ensures d < 10
  {
    c as int - '0' as int
  }

  function DigitChar(d: nat): (c: char)
    requires d < 10
    ensures IsDigit(c) && DigitValue(c) == d
  {
    ('0' as int + d) as char
  }

  /** The value of a string of decimal digits; leading zeros are allowed. */
  function DecimalValue(s: string): nat
    requires AllDigits(s)
  {
    if s == [] then 0 else 10 * DecimalValue(s[..|s| - 1]) + DigitValue(s[|s| - 1])
  }

  /** The text after at most one leading `+` or `-`: what `impl_from!` checks for digits. */
  function StripSign(s: string): (r: string)
    ensures |r| <= |s| && (|r| < |s| <==> |s| > 0 && (s[0] == '+' || s[0] == '-'))
  {
    if |s| > 0 && (s[0] == '+' || s[0] == '-') then s[1..] else s
  }

  /** The integer the text `s` denotes: its digits after the sign, negated after `-`. */
  function SignedValue(s: string): int
    requires AllDigits(StripSign(s))
  {
    var m: int := DecimalValue(StripSign(s));
    if |s| > 0 && s[0] == '-' then -m else m
  }

  /** `<i128 as FromStr>::from_str`: an optional `+` or `-` followed by one or more
      decimal digits whose value fits in `i128`; anything else is an error. */
  function ParseI128(s: string): (r: Option<I128>)
    ensures r.Some? <==> |StripSign(s)| > 0 && AllDigits(StripSign(s)) && InI128(SignedValue(s))
    ensures r.Some? ==> r.value == SignedValue(s)
  {
    var digits := StripSign(s);
    if |digits| == 0 || !AllDigits(digits) then None
    else if InI128(SignedValue(s)) then Some(SignedValue(s))
    else None
  }

  predicate InI128(v: int) {
    I128_MIN <= v <= I128_MAX
  }

  // ----- construction -------------------------------------------------------------

  /** `Int::new` (`TryFrom<&str>`, and with the same logic `TryFrom<String>` and
      `TryFrom<Cow<str>>`, the `impl_from!` macro): the `i128` when the text parses as
      one, otherwise the text itself when, after at most one sign, it is all digits;
      a leading `+` is dropped from the stored text, a leading `-` kept. */
  function New(s: string): (r: Option<Int>)
    ensures r.Some? <==> |s| > 0 && AllDigits(StripSign(s))
    ensures r.Some? ==> ValidText(r.value) && Value(r.value) == SignedValue(s)
  {
    match ParseI128(s)
    case Some(v) => Some(Stack(v))
    case None =>
      if |s| == 0 then None
      else if AllDigits(StripSign(s)) then
        assert StripSign(if s[0] == '+' then s[1..] else s) == StripSign(s);
        Some(Heap(if s[0] == '+' then s[1..] else s))
      else None
  }

  /** The text stored for a heap value is always digits after at most one sign. */
  predicate ValidText(x: Int) {
    x.Heap? ==> AllDigits(StripSign(x.text))
  }

  /** The mathematical value of an `Int`. */
  function Value(x: Int): int
    requires ValidText(x)
  {
    match x
    case Stack(v) => v
    case Heap(t) => SignedValue(t)
  }

  /** `From<u8>`, ..., `From<i128>` (the `into!` macro): every machine integer is stored
      on the stack. */
  function FromI128(v: I128): (r: Int)
    ensures IsI128(r) == Some(v) && IsBig(r) == None
  {
    Stack(v)
  }

  /** serde's `visit_str` / `visit_string` for `I`: the same choice as `New`, with its
      own error messages, and a heap value keeps a leading `+`. */
  function VisitStr(s: string): (r: Result<Int, string>)
  {
    match ParseI128(s)
    case Some(v) => Ok(Stack(v))
    case None =>
      if |s| == 0 then Err("empty string")
      else if AllDigits(StripSign(s)) then Ok(Heap(s))
      else Err("invalid integer string")
  }

  /** `visit_str` accepts exactly what `New` accepts; the two agree on stack values and
      differ on heap values only in the leading `+`; its errors are the two messages. */
  lemma VisitStrAgreesWithNew(s: string)
    ensures VisitStr(s).Ok? <==> New(s).Some?
    ensures VisitStr(s).Ok? && VisitStr(s).value.Stack? ==> New(s) == Some(VisitStr(s).value)
    ensures VisitStr(s).Ok? && VisitStr(s).value.Heap? ==>
      New(s) == Some(Heap(if s[0] == '+' then s[1..] else s)) && VisitStr(s).value == Heap(s)
    ensures VisitStr(s).Err? ==> VisitStr(s).error == (if s == "" then "empty string" else "invalid integer string")
  {
  }

  // ----- queries ------------------------------------------------------------------

  /** `Int::is_i128`. */
  function IsI128(x: Int): (r: Option<I128>)
    ensures r.Some? <==> x.Stack?
    ensures r.Some? ==> r.value == x.v
  {
    if x.Stack? then Some(x.v) else None
  }

  /** `Int::is_big`. */
  function IsBig(x: Int): (r: Option<string>)
    ensures r.Some? <==> x.Heap?
    ensures r.Some? ==> r.value == x.text
  {
    if x.Heap? then Some(x.text) else None
  }

  /** `Int::is_zero`. */
  predicate IsZero(x: Int) {
    x == Stack(0)
  }

  /** `Int::is_positive`; indexing the first byte of heap text panics when it is empty. */
  predicate IsPositive(x: Int)
    requires x.Heap? ==> |x.text| > 0
  {
    match x
    case Stack(v) => v > 0
    case Heap(t) => t[0] != '-'
  }

  /** `Int::is_negative`, with the same panic as `is_positive`. */
  predicate IsNegative(x: Int)
    requires x.Heap? ==> |x.text| > 0
  {
    match x
    case Stack(v) => v < 0
    case Heap(t) => t[0] == '-'
  }

  /** `Int::into_owned`: a copy that borrows nothing; variant and value are unchanged. */
  function IntoOwned(x: Int): (r: Int)
    ensures r == x
  {
    match x
    case Stack(i) => Stack(i)
    case Heap(t) => Heap(t)
  }

  // ----- display ------------------------------------------------------------------

  function NatToString(n: nat): (s: string)
    ensures |s| > 0 && AllDigits(s)
  {
    if n < 10 then [DigitChar(n)] else NatToString(n / 10) + [DigitChar(n % 10)]
  }

  /** `i128`'s `Display`: decimal, with `-` for negative values. */
  function IntToString(v: int): string {
    if v < 0 then "-" + NatToString(-v) else NatToString(v)
  }

  /** `Display for Int`: a stack value in decimal, a heap value verbatim. */
  function Display(x: Int): string {
    match x
    case Stack(v) => IntToString(v)
    case Heap(t) => t
  }

  lemma {:induction false} NatToStringValue(n: nat)
    ensures DecimalValue(NatToString(n)) == n
  {
    if n >= 10 {
      NatToStringValue(n / 10);
      var s := NatToString(n);
      assert s[..|s| - 1] == NatToString(n / 10);
    }
  }

  /** The `i128` parser reads back every `i128` the display writes. */
  lemma ParseDisplayedI128(v: I128)
    ensures ParseI128(IntToString(v)) == Some(v)
  {
    var s := IntToString(v);
    if v < 0 {
      var n: nat := -(v as int);
      var d := NatToString(n);
      NatToStringValue(n);
      assert s == "-" + d;
      assert StripSign(s) == d;
      assert SignedValue(s) == -(n as int);
    } else {
      var n: nat := v;
      NatToStringValue(n);
      assert s == NatToString(n);
      assert IsDigit(s[0]);
      assert StripSign(s) == s;
    }
  }

  /** Displaying an `Int` built from text and building again gives the same `Int`, for all
      text except a lone `+`, whose heap text is empty. */
  lemma NewDisplayRoundTrip(s: string)
    requires New(s).Some? && New(s).value != Heap("")
    ensures New(Display(New(s).value)) == New(s)
  {
    var x := New(s).value;
    match x {
      case Stack(v) => ParseDisplayedI128(v);
      case Heap(t) => {
        assert StripSign(t) == StripSign(s);
        assert ParseI128(t) == None;
      }
    }
  }

  /** Text whose value fits becomes a stack value: the canonical choice, one direction. */
  lemma NewInRange(s: string)
    requires |StripSign(s)| > 0 && AllDigits(StripSign(s)) && InI128(SignedValue(s))
    ensures New(s) == Some(Stack(SignedValue(s)))
  {
  }

  /** Text with digits whose value does not fit stays text, without a leading `+`: the
      other direction. */
  lemma NewOutOfRange(s: string)
    requires |StripSign(s)| > 0 && AllDigits(StripSign(s)) && !InI128(SignedValue(s))
    ensures New(s) == Some(Heap(if s[0] == '+' then s[1..] else s))
  {
  }

  /** The decimal text of any value above `i128::MAX` (such as 2^127) stays text. */
  lemma NewOfLargeDecimal(n: nat)
    requires n > I128_MAX
    ensures New(NatToString(n)) == Some(Heap(NatToString(n)))
  {
    var s := NatToString(n);
    NatToStringValue(n);
    assert IsDigit(s[0]);
    assert StripSign(s) == s;
  }

  /** The decimal text of any `i128` becomes that stack value. */
  lemma NewOfI128(v: I128)
    ensures New(IntToString(v)) == Some(Stack(v))
  {
    ParseDisplayedI128(v);
  }

  /** Decimal digits with no superfluous leading zero: the form `Display` writes. */
  predicate Canonical(t: string) {
    |t| > 0 && AllDigits(t) && (t[0] == '0' ==> |t| == 1)
  }

  /** `n` digits denote less than 10^n. */
  lemma {:induction false} DecimalBelowPow10(s: string)
    requires AllDigits(s)
    ensures DecimalValue(s) < Pow10(|s|)
  {
    if s != [] {
      DecimalBelowPow10(s[..|s| - 1]);
    }
  }

  /** Digits that do not start with `0` denote a positive value. */
  lemma {:induction false} LeadingDigitPositive(s: string)
    requires |s| > 0 && AllDigits(s) && s[0] != '0'
    ensures DecimalValue(s) > 0
  {
    if |s| > 1 {
      var p := s[..|s| - 1];
      assert p[0] == s[0];
      LeadingDigitPositive(p);
    }
  }

  /** The decimal display of the value of canonical digits is those digits. */
  lemma {:induction false} NatToStringOfDecimal(t: string)
    requires Canonical(t)
    ensures NatToString(DecimalValue(t)) == t
  {
    var p, c := t[..|t| - 1], t[|t| - 1];
    var n := DecimalValue(t);
    if |t| == 1 {
      assert p == [] && n == DigitValue(c);
      assert DigitChar(n) == c;
    } else {
      assert p[0] == t[0];
      assert Canonical(p);
      NatToStringOfDecimal(p);
      LeadingDigitPositive(p);
      assert n / 10 == DecimalValue(p) && n % 10 == DigitValue(c);
      assert t == p + [c];
    }
  }

  lemma {:induction false} Pow10Monotone(m: nat, n: nat)
    requires m <= n
    ensures Pow10(m) <= Pow10(n)
  {
    if m < n {
      Pow10Monotone(m, n - 1);
    }
  }

  lemma Pow10FitsI128()
    ensures Pow10(38) <= I128_MAX
  {
    Pow10Add(26, 12);
    Pow10Add(13, 13);
    assert Pow10(12) == 1000000000000;
    assert Pow10(13) == 10000000000000;
  }

  /** `Int::new` of canonical digits displays as those digits, whether the value is kept
      as an `i128` or as text; up to 38 digits it is always kept as an `i128`. */
  lemma DisplayNewCanonical(t: string)
    requires Canonical(t)
    ensures New(t).Some? && Display(New(t).value) == t
    ensures |t| <= 38 ==> InI128(DecimalValue(t)) && New(t) == Some(Stack(DecimalValue(t)))
  {
    assert IsDigit(t[0]);
    assert StripSign(t) == t;
    if InI128(DecimalValue(t)) {
      NatToStringOfDecimal(t);
    }
    if |t| <= 38 {
      DecimalBelowPow10(t);
      Pow10Monotone(|t|, 38);
      Pow10FitsI128();
    }
  }

  /** The rejected texts listed beside the implementation. */
  lemma NewRejects()
    ensures New("") == None && New("abc") == None && New("12.34") == None
    ensures New("12e5") == None && New("12.0") == None && New("+-123") == None && New("12-34") == None
  {
    assert !IsDigit('a') && !IsDigit('.') && !IsDigit('e') && !IsDigit('-');
    assert StripSign("abc")[0] == 'a';
    assert StripSign("12.34")[2] == '.';
    assert StripSign("12e5")[2] == 'e';
    assert StripSign("12.0")[2] == '.';
    assert StripSign("+-123")[0] == '-';
    assert StripSign("12-34")[2] == '-';
  }

  /** The accepted texts listed beside the implementation. */
  lemma NewAccepts()
    ensures New("123") == Some(Stack(123)) && New("+123") == Some(Stack(123)) && New("-123") == Some(Stack(-123))
  {
    assert StripSign("123") == "123" && StripSign("+123") == "123" && StripSign("-123") == "123";
    assert DecimalValue("123") == 123 by {
      assert "123"[..2] == "12" && "12"[..1] == "1" && "1"[..0] == "";
    }
  }

  /** A lone `+` is accepted as the heap value with empty text, which neither displays
      as an integer nor parses again. */
  lemma LonePlus()
    ensures New("+") == Some(Heap(""))
    ensures New(Display(Heap(""))) == None
  {
    assert StripSign("+") == "";
  }

  /** A lone `-` is accepted too, as the heap text `-` with no digits: the sign
      queries call it negative and not zero, though the value it denotes is 0. */
  lemma LoneMinus()
    ensures New("-") == Some(Heap("-"))
    ensures IsNegative(Heap("-")) && !IsPositive(Heap("-")) && !IsZero(Heap("-"))
    ensures Value(Heap("-")) == 0
  {
    assert StripSign("-") == "";
  }

  /** A heap value only arises when the text does not fit `i128` (or has no digits):
      the representation is canonical. */
  lemma HeapOnlyOutOfRange(s: string)
    requires New(s).Some? && New(s).value.Heap?
    ensures |StripSign(s)| == 0 || !InI128(SignedValue(s))
  {
  }

  /** `0`, `+0` and `-0` all become the stack zero. */
  lemma ZeroVariants()
    ensures New("0") == Some(Stack(0)) && New("+0") == Some(Stack(0)) && New("-0") == Some(Stack(0))
    ensures IsZero(New("0").value) && !IsPositive(New("0").value) && !IsNegative(New("0").value)
  {
    assert StripSign("0") == "0";
    assert StripSign("+0") == "0";
    assert StripSign("-0") == "0";
    assert DecimalValue("0") == 0 by {
      assert "0"[..0] == "";
    }
  }

  /** For every value built from text with at least one digit, the sign predicates agree
      with the sign of its value. */
  lemma SignsMatchValue(s: string)
    requires New(s).Some? && |StripSign(s)| > 0
    ensures var x := New(s).value;
      (x.Heap? ==> |x.text| > 0) &&
      (IsNegative(x) <==> SignedValue(s) < 0) && (IsPositive(x) <==> SignedValue(s) > 0) &&
      (IsZero(x) <==> SignedValue(s) == 0)
  {
    var x := New(s).value;
    if x.Heap? {
      HeapOnlyOutOfRange(s);
      assert x.text[0] == '-' <==> s[0] == '-';
    }
  }

  /** An `Int` is negative exactly when its display starts with `-`, and a
      stack value is zero exactly when it displays as `0`. */
  lemma SignOfDisplay(x: Int)
    requires x.Heap? ==> |x.text| > 0
    ensures |Display(x)| > 0
    ensures IsNegative(x) <==> Display(x)[0] == '-'
    ensures x.Stack? ==> (IsZero(x) <==> Display(x) == "0")
  {
    if x.Stack? {
      if x.v >= 0 {
        var t := NatToString(x.v);
        assert IsDigit(t[0]);
        if x.v != 0 {
          NatToStringValue(x.v);
          assert t != "0";
        }
      }
    }
  }

  // ----- the derived order ----------------------------------------------------------

  /** `str`'s order: lexicographic by characters, a proper prefix first. */
  predicate TextLess(a: string, b: string) {
    exists k :: 0 <= k <= |a| && k <= |b| && a[..k] == b[..k] &&
      ((k == |a| && k < |b|) || (k < |a| && k < |b| && a[k] < b[k]))
  }

  /** The derived `PartialOrd`/`Ord` of `I`: variants in declaration order (every stack
      value before every heap value), then by the payload. */
  predicate Less(x: Int, y: Int) {
    match (x, y)
    case (Stack(a), Stack(b)) => a < b
    case (Stack(_), Heap(_)) => true
    case (Heap(_), Stack(_)) => false
    case (Heap(s), Heap(t)) => TextLess(s, t)
  }

  /** The first index where two strings differ, or the shorter length. */
  function CommonPrefix(a: string, b: string): (k: nat)
    ensures k <= |a| && k <= |b| && a[..k] == b[..k]
    ensures k < |a| && k < |b| ==> a[k] != b[k]
  {
    if |a| == 0 || |b| == 0 || a[0] != b[0] then 0
    else
      var k := CommonPrefix(a[1..], b[1..]);
      assert a[..k + 1] == [a[0]] + a[1..][..k];
      assert b[..k + 1] == [b[0]] + b[1..][..k];
      k + 1
  }

  /** The order on text, decided at the first difference. */
  lemma TextLessAt(a: string, b: string)
    ensures var k := CommonPrefix(a, b);
      TextLess(a, b) <==> (k == |a| && k < |b|) || (k < |a| && k < |b| && a[k] < b[k])
  {
    var k := CommonPrefix(a, b);
    if TextLess(a, b) {
      var j :| 0 <= j <= |a| && j <= |b| && a[..j] == b[..j] &&
        ((j == |a| && j < |b|) || (j < |a| && j < |b| && a[j] < b[j]));
      PrefixAgrees(a, b, j);
      PrefixAgrees(a, b, k);
    }
  }

  lemma PrefixAgrees(a: string, b: string, k: nat)
    requires k <= |a| && k <= |b| && a[..k] == b[..k]
    ensures forall j :: 0 <= j < k ==> a[j] == b[j]
  {
    assert forall j :: 0 <= j < k ==> a[j] == a[..k][j] && b[j] == b[..k][j];
  }

  lemma TextLessIrreflexive(a: string)
    ensures !TextLess(a, a)
  {
    TextLessAt(a, a);
  }

  lemma TextLessTotal(a: string, b: string)
    requires a != b
    ensures TextLess(a, b) || TextLess(b, a)
  {
    TextLessAt(a, b);
    TextLessAt(b, a);
    var k := CommonPrefix(a, b);
    assert CommonPrefix(b, a) == k by {
      CommonPrefixSymmetric(a, b);
    }
  }

  lemma {:induction false} CommonPrefixSymmetric(a: string, b: string)
    ensures CommonPrefix(a, b) == CommonPrefix(b, a)
  {
    if |a| > 0 && |b| > 0 && a[0] == b[0] {
      CommonPrefixSymmetric(a[1..], b[1..]);
    }
  }

  lemma TextLessTransitive(a: string, b: string, c: string)
    requires TextLess(a, b) && TextLess(b, c)
    ensures TextLess(a, c)
  {
    TextLessAt(a, b);
    TextLessAt(b, c);
    var i := CommonPrefix(a, b);
    var j := CommonPrefix(b, c);
    var k := if i < j then i else j;
    assert a[..k] == c[..k] by {
      assert a[..k] == a[..i][..k] == b[..i][..k] == b[..k];
      assert b[..k] == b[..j][..k] == c[..j][..k] == c[..k];
    }
    if i < j {
      assert b[i] == b[..j][i] == c[..j][i] == c[i];
    } else if j < i {
      assert b[j] == b[..i][j] == a[..i][j] == a[j];
    }
    assert 0 <= k <= |a| && k <= |c| &&
      ((k == |a| && k < |c|) || (k < |a| && k < |c| && a[k] < c[k]));
  }

  /** The derived order is a strict total order. */
  lemma LessIsStrictTotalOrder(x: Int, y: Int, z: Int)
    ensures !Less(x, x)
    ensures x != y ==> Less(x, y) || Less(y, x)
    ensures Less(x, y) && Less(y, z) ==> Less(x, z)
  {
    if x.Heap? {
      TextLessIrreflexive(x.text);
    }
    if x != y && x.Heap? && y.Heap? {
      TextLessTotal(x.text, y.text);
    }
    if Less(x, y) && Less(y, z) && x.Heap? && y.Heap? && z.Heap? {
      TextLessTransitive(x.text, y.text, z.text);
    }
  }

  /** The derived order is not numeric: every stack value, however large, sits below
      every heap value, even a negative one. */
  lemma OrderIsNotNumeric()
    ensures var big := Heap("-1" + Zeros(39));
      ValidText(big) && Value(big) < I128_MIN && Less(Stack(I128_MAX), big)
  {
    var u := "1" + Zeros(39);
    assert "-1" + Zeros(39) == "-" + u;
    assert StripSign("-" + u) == u;
    OneZerosValue(39);
    Pow10ExceedsI128();
  }

  /** `n` zero digits. */
  function Zeros(n: nat): (r: string)
    ensures |r| == n
    ensures forall i :: 0 <= i < n ==> r[i] == '0'
  {
    if n == 0 then "" else Zeros(n - 1) + "0"
  }

  /** A one followed by `n` zeros is the digit string of 10^n. */
  lemma {:induction false} OneZerosValue(n: nat)
    ensures AllDigits("1" + Zeros(n))
    ensures DecimalValue("1" + Zeros(n)) == Pow10(n)
  {
    var s := "1" + Zeros(n);
    assert forall i :: 0 <= i < |s| ==> IsDigit(s[i]) by {
      forall i | 0 <= i < |s| ensures IsDigit(s[i]) {
        if i > 0 {
          assert s[i] == Zeros(n)[i - 1];
        }
      }
    }
    if n > 0 {
      OneZerosValue(n - 1);
      assert s[..|s| - 1] == "1" + Zeros(n - 1);
    }
  }

  lemma Pow10ExceedsI128()
    ensures Pow10(39) > I128_MAX
  {
    Pow10Add(26, 13);
    Pow10Add(13, 13);
    assert Pow10(13) == 10000000000000;
  }

  lemma {:induction false} Pow10Add(m: nat, n: nat)
    ensures Pow10(m + n) == Pow10(m) * Pow10(n)
  {
    if m > 0 {
      Pow10Add(m - 1, n);
    }
  }

  function Pow10(n: nat): nat {
    if n == 0 then 1 else 10 * Pow10(n - 1)
  }
}
