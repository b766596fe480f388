/**
 * The small part of JavaScript's value semantics that the release script and
 * the example reducers rely on: `undefined` for a missing value,
 * `String.prototype.split` on a one-character separator, the unary `+`
 * conversion of text to a number, number-to-text conversion in template
 * literals, and truthiness of numbers.
 */
module Js {

  /** A value that may be `undefined`. */
  datatype Option<T> = None | Some(value: T) {
    function GetOr(default: T): T {
      match this
      case Some(v) => v
      case None => default
    }
  }

  /** A JavaScript number restricted to what this model gives the release
      script: a non-negative integer or NaN. The script can also meet
      Infinity and the rounding of doubles above 2^53; neither is modelled. */
  datatype JsNumber = Finite(n: nat) | NaN

  /** `x ? … : …` on a number: 0 and NaN are falsy. */
  predicate Truthy(x: JsNumber) {
    x.Finite? && x.n != 0
  }

  /** `x + 1` */
  function Inc(x: JsNumber): (r: JsNumber)
    ensures r.NaN? <==> x.NaN?
    ensures x.Finite? ==> r.n == x.n + 1 && Truthy(r)
  {
    match x
    case Finite(n) => Finite(n + 1)
    case NaN => NaN
  }

  // ---------------------------------------------------------------------
  // split / join

  /** `parts.join(sep)` for a non-empty array of parts. */
  function Join(parts: seq<string>, sep: char): string
    requires |parts| >= 1
  {
    if |parts| == 1 then parts[0] else parts[0] + [sep] + Join(parts[1..], sep)
  }

  /** `s.split(sep)` for a one-character separator: the maximal runs of `s`
      between separators, always at least one (`"".split(".")` is `[""]`). */
  function Split(s: string, sep: char): (parts: seq<string>)
    ensures |parts| >= 1
    ensures forall i :: 0 <= i < |parts| ==> sep !in parts[i]
  {
    if |s| == 0 then [""]
    else
      var rest := Split(s[1..], sep);
      if s[0] == sep then [""] + rest
      else [[s[0]] + rest[0]] + rest[1..]
  }

  /** Splitting loses nothing: joining the parts with the separator gives
      back the text. */
  lemma {:induction false} JoinSplit(s: string, sep: char)
    ensures Join(Split(s, sep), sep) == s
  {
    if |s| > 0 {
      var rest := Split(s[1..], sep);
      JoinSplit(s[1..], sep);
      if s[0] == sep {
        assert Split(s, sep)[1..] == rest;
      } else {
        var parts := Split(s, sep);
        if |rest| == 1 {
          assert parts == [[s[0]] + rest[0]];
        } else {
          assert parts[1..] == rest[1..];
          assert Join(rest, sep) == rest[0] + [sep] + Join(rest[1..], sep);
        }
      }
    }
  }

  /** Text without the separator splits into itself alone. */
  lemma {:induction false} SplitWithoutSeparator(s: string, sep: char)
    requires sep !in s
    ensures Split(s, sep) == [s]
  {
    if |s| > 0 {
      assert sep !in s[1..] by {
        forall i | 0 <= i < |s[1..]| ensures s[1..][i] != sep {
          assert s[1..][i] == s[i + 1];
        }
      }
      SplitWithoutSeparator(s[1..], sep);
      assert [s[0]] + s[1..] == s;
    }
  }

  /** The first separator ends the first part; the rest splits on its own. */
  lemma {:induction false} SplitAtFirstSeparator(a: string, b: string, sep: char)
    requires sep !in a
    ensures Split(a + [sep] + b, sep) == [a] + Split(b, sep)
  {
    if |a| == 0 {
      assert a + [sep] + b == [sep] + b;
      assert ([sep] + b)[1..] == b;
    } else {
      var s := a + [sep] + b;
      assert s[0] == a[0];
      assert s[1..] == a[1..] + [sep] + b;
      assert sep !in a[1..] by {
        forall i | 0 <= i < |a[1..]| ensures a[1..][i] != sep {
          assert a[1..][i] == a[i + 1];
        }
      }
      SplitAtFirstSeparator(a[1..], b, sep);
      assert [a[0]] + a[1..] == a;
    }
  }

  // ---------------------------------------------------------------------
  // decimal text and numbers

  predicate IsDigit(c: char) {
    '0' <= c <= '9'
  }

  predicate AllDigits(s: string) {
    forall i :: 0 <= i < |s| ==> IsDigit(s[i])
  }

  /** Digit text contains neither separator the release script splits on. */
  lemma DigitsHaveNoSeparators(s: string)
    requires AllDigits(s)
    ensures '.' !in s && '-' !in s
  {
  }

  /** The value of a string of decimal digits; the empty string is 0, as in
      JavaScript's `+""`. */
  function DigitsValue(s: string): nat
    requires AllDigits(s)
  {
    if |s| == 0 then 0
    else DigitsValue(s[..|s| - 1]) * 10 + (s[|s| - 1] as int - '0' as int)
  }

  function DigitChar(d: nat): (c: char)
    requires d < 10
    ensures IsDigit(c) && c as int - '0' as int == d
  {
    ('0' as int + d) as char
  }

  /** The decimal text of a natural number, without leading zeros. */
  function DecimalText(n: nat): (s: string)
    ensures |s| >= 1 && AllDigits(s)
    ensures DigitsValue(s) == n
    ensures |s| > 1 ==> s[0] != '0'
  {
    if n < 10 then [DigitChar(n)]
    else
      var s := DecimalText(n / 10) + [DigitChar(n % 10)];
      assert s[..|s| - 1] == DecimalText(n / 10);
      s
  }

  /** Unary `+` on text: digit-only text gives its value, anything else NaN. */
  function ToNumber(s: string): JsNumber {
    if AllDigits(s) then Finite(DigitsValue(s)) else NaN
  }

  /** k '0' digits. */
  function Zeros(k: nat): (s: string)
    ensures |s| == k && AllDigits(s)
  {
    seq(k, _ => '0')
  }

  /** The number of '0's a text starts with. */
  function LeadingZeros(s: string): (k: nat)
    ensures k <= |s| && s[..k] == Zeros(k)
    ensures k < |s| ==> s[k] != '0'
  {
    if |s| == 0 || s[0] != '0' then 0
    else
      var k := 1 + LeadingZeros(s[1..]);
      assert s[..k] == [s[0]] + s[1..][..k - 1];
      k
  }

  /** Digit text made only of '0's (the empty text included) is worth 0. */
  lemma {:induction false} ZerosValue(k: nat)
    ensures DigitsValue(Zeros(k)) == 0
  {
    if k > 0 {
      assert Zeros(k)[..k - 1] == Zeros(k - 1);
      ZerosValue(k - 1);
    }
  }

  /** Leading '0's add nothing to the value of a digit text. */
  lemma {:induction false} LeadingZerosAddNothing(k: nat, t: string)
    requires AllDigits(t)
    ensures AllDigits(Zeros(k) + t)
    ensures DigitsValue(Zeros(k) + t) == DigitsValue(t)
  {
    var s := Zeros(k) + t;
    assert AllDigits(s) by {
      forall i | 0 <= i < |s| ensures IsDigit(s[i]) {
        if i >= k { assert s[i] == t[i - k]; }
      }
    }
    if |t| == 0 {
      assert s == Zeros(k);
      ZerosValue(k);
    } else {
      assert s[..|s| - 1] == Zeros(k) + t[..|t| - 1];
      LeadingZerosAddNothing(k, t[..|t| - 1]);
    }
  }

  /** A digit text without a leading '0' is the decimal text of its value. */
  lemma {:induction false} UnpaddedDigitsAreDecimalText(t: string)
    requires AllDigits(t) && |t| >= 1 && t[0] != '0'
    ensures DigitsValue(t) >= 1
    ensures DecimalText(DigitsValue(t)) == t
  {
    var last := t[|t| - 1] as int - '0' as int;
    if |t| == 1 {
      assert DigitsValue(t) == last;
      assert [DigitChar(last)] == t;
    } else {
      var p := t[..|t| - 1];
      UnpaddedDigitsAreDecimalText(p);
      var v := DigitsValue(t);
      assert v == DigitsValue(p) * 10 + last;
      assert v / 10 == DigitsValue(p) && v % 10 == last;
      assert DigitChar(last) == t[|t| - 1];
      assert t == p + [t[|t| - 1]];
    }
  }

  /** `+` reads any number of '0's followed by the decimal text of n as n:
      `+"007"` is 7, `+"0"` and `+""` are 0. */
  lemma {:induction false} ToNumberOfPaddedDecimal(k: nat, n: nat)
    ensures ToNumber(Zeros(k) + DecimalText(n)) == Finite(n)
    ensures ToNumber(Zeros(k)) == Finite(0)
  {
    LeadingZerosAddNothing(k, DecimalText(n));
    ZerosValue(k);
  }

  /** Every digit text is either all '0's, reading as 0, or '0's followed by
      the decimal text of the number `+` reads; text with any other character
      reads as NaN. */
  lemma {:induction false} ToNumberReadsDecimal(s: string)
    ensures !AllDigits(s) ==> ToNumber(s) == NaN
    ensures AllDigits(s) && LeadingZeros(s) == |s| ==> ToNumber(s) == Finite(0)
    ensures AllDigits(s) && LeadingZeros(s) < |s| ==>
      ToNumber(s).Finite? && s == Zeros(LeadingZeros(s)) + DecimalText(ToNumber(s).n)
  {
    if AllDigits(s) {
      var k := LeadingZeros(s);
      var t := s[k..];
      assert s == Zeros(k) + t;
      if k == |s| {
        assert s == s[..k] == Zeros(k);
        ZerosValue(k);
      } else {
        UnpaddedDigitsAreDecimalText(t);
        LeadingZerosAddNothing(k, t);
      }
    }
  }

  /** `${x}`: the text a template literal gives a number. */
  function ToText(x: JsNumber): (s: string)
    ensures |s| >= 1 && '-' !in s && '.' !in s
  {
    match x
    case Finite(n) =>
      var s := DecimalText(n);
      assert forall i :: 0 <= i < |s| ==> s[i] != '-' && s[i] != '.' by {
        forall i | 0 <= i < |s| ensures s[i] != '-' && s[i] != '.' {
          assert IsDigit(s[i]);
        }
      }
      s
    case NaN => "NaN"
  }

  /** Converting a number to text and back with `+` returns the number. */
  lemma NumberTextRoundTrip(x: JsNumber)
    ensures ToNumber(ToText(x)) == x
  {
  }
}
