/**
 * The price parser of the storefront script (`parsePrice`): a number passes
 * through, a string is stripped to its digits and dots and then read as a
 * decimal number, and anything else is worth 0.
 *
 * Numbers are modelled as exact reals; the binary floating point of
 * JavaScript numbers is not part of this model.
 */
module PriceParser {
  import opened Wrappers

  /** The JavaScript value handed to `parsePrice`, by its `typeof`. */
  datatype PriceValue =
    | Number(n: real)   // typeof price === 'number'
    | Text(s: string)   // typeof price === 'string'
    | NotPriced         // undefined, null, objects, ...

  /** `\d` in a JavaScript regular expression: an ASCII digit. */
  predicate IsDigit(c: char) {
    '0' <= c <= '9'
  }

  /** The characters the pattern `[^\d.]` keeps. */
  predicate IsNumeric(c: char) {
    IsDigit(c) || c == '.'
  }

  predicate AllNumeric(s: string) {
    forall i :: 0 <= i < |s| ==> IsNumeric(s[i])
  }

  predicate AllDigits(s: string) {
    forall i :: 0 <= i < |s| ==> IsDigit(s[i])
  }

  /**
   * `price.replace(/[^\d.]/g, '')`: drops every character that is neither a
   * digit nor a dot, keeping the others in order.
   */
  function StripNonNumeric(s: string): (r: string)
    ensures |r| <= |s|
    ensures AllNumeric(r)
  {
    if s == [] then []
    else (if IsNumeric(s[0]) then [s[0]] else []) + StripNonNumeric(s[1..])
  }

  /**
   * Stripping keeps every digit and dot of `s`, as many times as it occurs,
   * and nothing else.
   */
  lemma {:induction false} StripCounts(s: string, c: char)
    ensures multiset(StripNonNumeric(s))[c] == if IsNumeric(c) then multiset(s)[c] else 0
  {
    if s != [] {
      assert s == [s[0]] + s[1..];
      StripCounts(s[1..], c);
    }
  }

  function DigitValue(c: char): nat
    requires IsDigit(c)
  {
    (c as int) - ('0' as int)
  }

  function DigitChar(d: nat): (c: char)
    requires d < 10
    ensures IsDigit(c) && DigitValue(c) == d
  {
    (('0' as int) + d) as char
  }

  /** The value of a string of decimal digits, read left to right. */
  function DigitsValue(ds: string): nat
    requires AllDigits(ds)
  {
    if ds == [] then 0
    else DigitsValue(ds[..|ds| - 1]) * 10 + DigitValue(ds[|ds| - 1])
  }

  function Pow10(k: nat): (r: nat)
    ensures r >= 1
  {
    if k == 0 then 1 else 10 * Pow10(k - 1)
  }

  /** The number of leading characters of `s` that are digits. */
  function LeadingDigits(s: string): (n: nat)
    ensures n <= |s|
    ensures AllDigits(s[..n])
    ensures n < |s| ==> !IsDigit(s[n])
  {
    if s == [] || !IsDigit(s[0]) then 0
    else
      var n := 1 + LeadingDigits(s[1..]);
      assert s[..n] == [s[0]] + s[1..][..n - 1];
      n
  }

  /** The digits right after a leading dot of `rest`, if it starts with one. */
  function FractionDigits(rest: string): (ds: string)
    ensures AllDigits(ds)
  {
    if rest != [] && rest[0] == '.' then rest[1..][..LeadingDigits(rest[1..])] else []
  }

  /** The value of the digits after a decimal point. */
  function FractionValue(ds: string): (r: real)
    requires AllDigits(ds)
    ensures r >= 0.0
  {
    DigitsValue(ds) as real / Pow10(|ds|) as real
  }

  /**
   * `parseFloat` applied to a string of digits and dots (the only strings
   * `parsePrice` hands it): the longest prefix of the form
   * `digits [ "." digits ]` with at least one digit is read as a decimal
   * number; when there is no digit before or right after the first dot the
   * result is NaN, here None.
   */
  function ParseDecimal(s: string): (r: Option<real>)
    requires AllNumeric(s)
    ensures r.Some? ==> r.value >= 0.0
    ensures |s| > 0 && IsDigit(s[0]) ==> r.Some?
    ensures (forall i :: 0 <= i < |s| ==> !IsDigit(s[i])) ==> r == None
  {
    var whole := LeadingDigits(s);
    var fraction := FractionDigits(s[whole..]);
    if whole == 0 && fraction == [] then None
    else Some(DigitsValue(s[..whole]) as real + FractionValue(fraction))
  }

  /** Every digit of the stripped text comes from the original one. */
  lemma StripFindsNoDigit(s: string)
    ensures (forall i :: 0 <= i < |s| ==> !IsDigit(s[i])) ==>
      forall i :: 0 <= i < |StripNonNumeric(s)| ==> !IsDigit(StripNonNumeric(s)[i])
  {
    var digits := StripNonNumeric(s);
    forall i | 0 <= i < |digits| && IsDigit(digits[i])
      ensures exists j :: 0 <= j < |s| && IsDigit(s[j])
    {
      StripCounts(s, digits[i]);
      assert digits[i] in multiset(digits);
      assert digits[i] in multiset(s);
    }
  }

  /** `parsePrice(price)`. */
  function ParsePrice(p: PriceValue): (r: real)
    ensures p.Number? ==> r == p.n
    ensures p.NotPriced? ==> r == 0.0
    ensures p.Text? ==> r >= 0.0
    ensures p.Text? && (forall i :: 0 <= i < |p.s| ==> !IsDigit(p.s[i])) ==> r == 0.0
  {
    match p
    case Number(n) => n
    case Text(s) =>
      var digits := StripNonNumeric(s);
      StripFindsNoDigit(s);
      (match ParseDecimal(digits)
       case Some(v) => v
       case None => 0.0)
    case NotPriced => 0.0
  }

  /** Stripping distributes over concatenation. */
  lemma {:induction false} StripConcat(a: string, b: string)
    ensures StripNonNumeric(a + b) == StripNonNumeric(a) + StripNonNumeric(b)
  {
    if a == [] {
      assert a + b == b;
    } else {
      var head := if IsNumeric(a[0]) then [a[0]] else [];
      assert (a + b)[0] == a[0];
      assert (a + b)[1..] == a[1..] + b;
      assert StripNonNumeric(a + b) == head + StripNonNumeric(a[1..] + b);
      StripConcat(a[1..], b);
      assert StripNonNumeric(a) == head + StripNonNumeric(a[1..]);
    }
  }

  /** A string of digits and dots is left as it is. */
  lemma {:induction false} StripKeepsNumeric(s: string)
    requires AllNumeric(s)
    ensures StripNonNumeric(s) == s
  {
    if s != [] {
      StripKeepsNumeric(s[1..]);
    }
  }

  /** Stripping twice is stripping once. */
  lemma StripIdempotent(s: string)
    ensures StripNonNumeric(StripNonNumeric(s)) == StripNonNumeric(s)
  {
    StripKeepsNumeric(StripNonNumeric(s));
  }

  /** The digit prefix of `a + b` is all of `a` when `b` does not go on with a digit. */
  lemma {:induction false} LeadingDigitsOfConcat(a: string, b: string)
    requires AllDigits(a)
    requires b == [] || !IsDigit(b[0])
    ensures LeadingDigits(a + b) == |a|
  {
    if a == [] {
      assert a + b == b;
    } else {
      assert (a + b)[1..] == a[1..] + b;
      LeadingDigitsOfConcat(a[1..], b);
    }
  }

  /** The decimal digits of `n`, most significant first, without leading zeros. */
  function NatText(n: nat): (ds: string)
    ensures |ds| >= 1 && AllDigits(ds)
  {
    if n < 10 then [DigitChar(n)] else NatText(n / 10) + [DigitChar(n % 10)]
  }

  /** Reading the digits of `n` gives back `n`. */
  lemma {:induction false} NatTextValue(n: nat)
    ensures DigitsValue(NatText(n)) == n
  {
    var ds := NatText(n);
    if n < 10 {
      assert ds[..0] == [];
    } else {
      NatTextValue(n / 10);
      assert ds[..|ds| - 1] == NatText(n / 10);
    }
  }

  /** A price as the storefront writes it: a dollar sign and two decimals, like `$12.50`. */
  function PriceLabel(cents: nat): string
  {
    "$" + NatText(cents / 100) + "." + [DigitChar(cents / 10 % 10), DigitChar(cents % 10)]
  }

  /** The digits and dot left of a price label once stripped. */
  lemma StripPriceLabel(cents: nat)
    ensures StripNonNumeric(PriceLabel(cents))
         == NatText(cents / 100) + "." + [DigitChar(cents / 10 % 10), DigitChar(cents % 10)]
  {
    var digits := NatText(cents / 100) + "." + [DigitChar(cents / 10 % 10), DigitChar(cents % 10)];
    assert PriceLabel(cents) == "$" + digits;
    StripConcat("$", digits);
    StripKeepsNumeric(digits);
  }

  /** `parseFloat` once the digit prefix and the fraction digits are known. */
  lemma ParseWholeAndFraction(s: string, whole: string, fraction: string)
    requires AllNumeric(s) && AllDigits(whole) && AllDigits(fraction)
    requires LeadingDigits(s) == |whole| && s[..|whole|] == whole
    requires FractionDigits(s[|whole|..]) == fraction
    ensures ParseDecimal(s)
         == if whole == [] && fraction == [] then None
            else Some(DigitsValue(whole) as real + FractionValue(fraction))
  {
  }

  /** After a dot, `parseFloat` reads every following digit. */
  lemma FractionAfterDot(fraction: string)
    requires AllDigits(fraction)
    ensures FractionDigits("." + fraction) == fraction
  {
    assert ("." + fraction)[1..] == fraction;
    LeadingDigitsOfConcat(fraction, []);
    assert fraction + [] == fraction;
    assert fraction[..|fraction|] == fraction;
  }

  /**
   * `parseFloat` of a decimal written as whole digits, a dot and fraction
   * digits, with at least one digit on either side of the dot (`12.50`,
   * `12.` and `.50` alike).
   */
  lemma ParseDecimalNotation(whole: string, fraction: string)
    requires |whole| + |fraction| >= 1 && AllDigits(whole) && AllDigits(fraction)
    ensures AllNumeric(whole + "." + fraction)
    ensures ParseDecimal(whole + "." + fraction)
         == Some(DigitsValue(whole) as real + FractionValue(fraction))
  {
    var tail := "." + fraction;
    var s := whole + tail;
    assert whole + "." + fraction == s;
    forall i | 0 <= i < |s|
      ensures IsNumeric(s[i])
    {
      if i < |whole| {
        assert s[i] == whole[i];
      } else if i > |whole| {
        assert s[i] == fraction[i - |whole| - 1];
      }
    }
    LeadingDigitsOfConcat(whole, tail);
    assert s[..|whole|] == whole;
    assert s[|whole|..] == tail;
    FractionAfterDot(fraction);
    assert !(whole == [] && fraction == []);
    ParseWholeAndFraction(s, whole, fraction);
  }

  /** `k` digits write a number below `10^k`. */
  lemma {:induction false} DigitsBelowPow10(ds: string)
    requires AllDigits(ds)
    ensures DigitsValue(ds) < Pow10(|ds|)
  {
    if ds != [] {
      var init := ds[..|ds| - 1];
      DigitsBelowPow10(init);
      assert DigitsValue(init) + 1 <= Pow10(|init|);
      assert DigitsValue(init) * 10 + 10 <= Pow10(|init|) * 10;
      assert DigitValue(ds[|ds| - 1]) < 10;
    }
  }

  /** The digits after a decimal point are worth less than 1. */
  lemma FractionBelowOne(fraction: string)
    requires AllDigits(fraction)
    ensures FractionValue(fraction) < 1.0
  {
    DigitsBelowPow10(fraction);
    QuotientBelowOne(DigitsValue(fraction) as real, Pow10(|fraction|) as real);
  }

  lemma QuotientBelowOne(d: real, p: real)
    requires 0.0 <= d < p
    ensures d / p < 1.0
  {
    assert d / p * p == d < 1.0 * p;
  }

  /**
   * A text that starts with a dot and digits, such as what `Tk. 500`
   * strips to, reads as its fraction alone: a number below 1.
   */
  lemma LeadingDotBelowOne(fraction: string)
    requires |fraction| >= 1 && AllDigits(fraction)
    ensures AllNumeric("." + fraction)
    ensures ParseDecimal("." + fraction) == Some(FractionValue(fraction))
    ensures FractionValue(fraction) < 1.0
  {
    assert DigitsValue([]) as real + FractionValue(fraction) == FractionValue(fraction);
    ParseDecimalOf("." + fraction, [], fraction);
    FractionBelowOne(fraction);
  }

  /** A text of digits alone is all digit prefix. */
  lemma LeadingDigitsOfDigits(ds: string)
    requires AllDigits(ds)
    ensures LeadingDigits(ds) == |ds|
  {
    assert ds + [] == ds;
    LeadingDigitsOfConcat(ds, []);
  }

  /** No fraction digits are worth nothing. */
  lemma NoFraction()
    ensures FractionDigits([]) == []
    ensures FractionValue([]) == 0.0
  {
    assert DigitsValue([]) == 0 && Pow10(0) == 1;
  }

  /** `parseFloat` of a text of digits alone is the whole number they write. */
  lemma ParseDecimalWhole(whole: string)
    requires |whole| >= 1 && AllDigits(whole)
    ensures AllNumeric(whole)
    ensures ParseDecimal(whole) == Some(DigitsValue(whole) as real)
  {
    LeadingDigitsOfDigits(whole);
    assert whole[..|whole|] == whole;
    assert whole[|whole|..] == [];
    NoFraction();
    ParseWholeAndFraction(whole, whole, []);
  }

  /** Digits, a dot, digits, and digits and dots again make a text of digits and dots. */
  lemma NotationNumeric(whole: string, fraction: string, rest: string)
    requires AllDigits(whole) && AllDigits(fraction) && AllNumeric(rest)
    ensures AllNumeric(whole + "." + fraction + rest)
  {
    var s := whole + "." + fraction + rest;
    forall i | 0 <= i < |s|
      ensures IsNumeric(s[i])
    {
      if i < |whole| {
        assert s[i] == whole[i];
      } else if |whole| < i < |whole| + 1 + |fraction| {
        assert s[i] == fraction[i - |whole| - 1];
      } else if i >= |whole| + 1 + |fraction| {
        assert s[i] == rest[i - |whole| - 1 - |fraction|];
      }
    }
  }

  /**
   * `parseFloat` reads the longest prefix `<digits>.<digits>` and ignores
   * what follows it, here a further dot and anything after it.
   */
  lemma ParseDecimalPrefix(whole: string, fraction: string, rest: string)
    requires AllDigits(whole) && AllDigits(fraction) && AllNumeric(rest)
    requires rest == [] || !IsDigit(rest[0])
    ensures AllNumeric(whole + "." + fraction + rest) && AllNumeric(whole + "." + fraction)
    ensures ParseDecimal(whole + "." + fraction + rest) == ParseDecimal(whole + "." + fraction)
  {
    var tail, short := "." + fraction + rest, "." + fraction;
    var s, t := whole + tail, whole + short;
    assert whole + "." + fraction + rest == s && whole + "." + fraction == t;
    NotationNumeric(whole, fraction, rest);
    NotationNumeric(whole, fraction, []);
    assert t + [] == t;
    LeadingDigitsOfConcat(whole, tail);
    LeadingDigitsOfConcat(whole, short);
    assert s[..|whole|] == whole && t[..|whole|] == whole;
    assert s[|whole|..] == tail && t[|whole|..] == short;
    assert tail[1..] == fraction + rest;
    LeadingDigitsOfConcat(fraction, rest);
    assert (fraction + rest)[..|fraction|] == fraction;
    FractionAfterDot(fraction);
    ParseWholeAndFraction(s, whole, fraction);
    ParseWholeAndFraction(t, whole, fraction);
  }

  /**
   * `parseFloat` is NaN exactly when the text neither starts with a digit
   * nor starts with a dot followed by a digit.
   */
  lemma ParseDecimalNoneIff(s: string)
    requires AllNumeric(s)
    ensures ParseDecimal(s) == None
        <==> !(|s| > 0 && IsDigit(s[0])) && !(|s| > 1 && s[0] == '.' && IsDigit(s[1]))
  {
    if |s| > 0 && !IsDigit(s[0]) {
      assert s[0] == '.';
      assert s[0..] == s;
      assert |s| > 1 ==> s[1..][0] == s[1];
    }
  }

  /** The last two decimal digits of `n`. */
  lemma LastTwoDigits(n: nat)
    ensures n % 100 == n / 10 % 10 * 10 + n % 10
    ensures n / 100 == n / 10 / 10
  {
    var q, r := n / 10, n % 10;
    var q1, r1 := q / 10, q % 10;
    assert n == 100 * q1 + (10 * r1 + r);
    assert 0 <= 10 * r1 + r < 100;
  }

  /** The two decimals of a price in cents. */
  lemma CentsFraction(cents: nat)
    ensures FractionValue([DigitChar(cents / 10 % 10), DigitChar(cents % 10)])
         == (cents % 100) as real / 100.0
  {
    var d1, d2 := cents / 10 % 10, cents % 10;
    var fraction := [DigitChar(d1), DigitChar(d2)];
    assert fraction[..1] == [fraction[0]];
    assert fraction[..1][..0] == [];
    assert DigitsValue(fraction[..1]) == d1;
    assert DigitsValue(fraction) == d1 * 10 + d2;
    LastTwoDigits(cents);
    assert Pow10(|fraction|) == 100;
  }

  /** Parsing a price label gives back the exact amount it shows. */
  lemma ParsePriceOfLabel(cents: nat)
    ensures ParsePrice(Text(PriceLabel(cents))) == cents as real / 100.0
  {
    var whole := NatText(cents / 100);
    var fraction := [DigitChar(cents / 10 % 10), DigitChar(cents % 10)];
    StripPriceLabel(cents);
    ParseDecimalNotation(whole, fraction);
    CentsFraction(cents);
    NatTextValue(cents / 100);
    assert cents == (cents / 100) * 100 + cents % 100;
  }

  /** `parsePrice` of a text, once its stripped form and that form's reading are known. */
  lemma ParsePriceOfText(s: string, digits: string, v: Option<real>)
    requires StripNonNumeric(s) == digits && ParseDecimal(digits) == v
    ensures ParsePrice(Text(s)) == if v.Some? then v.value else 0.0
  {
  }

  /** Stripping a text whose tail is already digits and dots. */
  lemma StripWithHead(head: string, tail: string, stripped: string)
    requires StripNonNumeric(head) == stripped && AllNumeric(tail)
    ensures StripNonNumeric(head + tail) == stripped + tail
  {
    StripConcat(head, tail);
    StripKeepsNumeric(tail);
  }

  lemma StripDollarComma()
    ensures StripNonNumeric("$1,") == "1"
  {
    assert "$1,"[1..] == "1," && "1,"[1..] == "," && ","[1..] == [];
  }

  lemma StripCurrencyWord()
    ensures StripNonNumeric("Tk. ") == "."
  {
    assert "Tk. "[1..] == "k. " && "k. "[1..] == ". " && ". "[1..] == " " && " "[1..] == [];
  }

  /** A thousands comma is dropped. */
  lemma StripThousands()
    ensures StripNonNumeric("$1,299.00") == "1299.00"
  {
    StripDollarComma();
    StripWithHead("$1,", "299.00", "1");
    assert "$1," + "299.00" == "$1,299.00";
    assert "1" + "299.00" == "1299.00";
  }

  /** A whole number needs no dot. */
  lemma StripWholeThousands()
    ensures StripNonNumeric("$1,299") == "1299"
  {
    StripDollarComma();
    StripWithHead("$1,", "299", "1");
    assert "$1," + "299" == "$1,299";
    assert "1" + "299" == "1299";
  }

  /** A currency word and the space after it are dropped, its dot is kept. */
  lemma StripWordDot()
    ensures StripNonNumeric("Tk. 500") == ".500"
  {
    StripCurrencyWord();
    StripWithHead("Tk. ", "500", ".");
    assert "Tk. " + "500" == "Tk. 500";
    assert "." + "500" == ".500";
  }

  lemma DigitsValue1299()
    ensures DigitsValue("1299") == 1299
  {
    assert "1299"[..3] == "129" && "129"[..2] == "12" && "12"[..1] == "1" && "1"[..0] == [];
  }

  lemma DigitsValueZeros()
    ensures DigitsValue("00") == 0
  {
    assert "00"[..1] == "0" && "0"[..0] == [];
  }

  /** `parseFloat` of a text known to be written as `<whole>.<fraction>`. */
  lemma ParseDecimalOf(s: string, whole: string, fraction: string)
    requires |whole| + |fraction| >= 1 && AllDigits(whole) && AllDigits(fraction)
    requires s == whole + "." + fraction
    ensures AllNumeric(s)
    ensures ParseDecimal(s) == Some(DigitsValue(whole) as real + FractionValue(fraction))
  {
    ParseDecimalNotation(whole, fraction);
  }

  lemma DecimalThousands()
    ensures AllNumeric("1299.00")
    ensures ParseDecimal("1299.00") == Some(1299.0)
  {
    DigitsValue1299();
    DigitsValueZeros();
    assert DigitsValue("1299") as real + FractionValue("00") == 1299.0;
    ParseDecimalOf("1299.00", "1299", "00");
  }

  lemma DecimalWhole()
    ensures AllNumeric("1299") && ParseDecimal("1299") == Some(1299.0)
  {
    ParseDecimalWhole("1299");
    DigitsValue1299();
  }

  lemma DecimalOnePointTwo()
    ensures AllNumeric("1.2") && ParseDecimal("1.2") == Some(1.2)
  {
    assert "1"[..0] == [] && "2"[..0] == [];
    assert DigitsValue("1") == 1 && DigitsValue("2") == 2 && Pow10(1) == 10;
    assert FractionValue("2") == 0.2;
    ParseDecimalOf("1.2", "1", "2");
  }

  lemma SecondDotIgnored()
    ensures AllNumeric("1.2.3") && AllNumeric("1.2")
    ensures ParseDecimal("1.2.3") == ParseDecimal("1.2")
  {
    var whole, fraction, rest := "1", "2", ".3";
    assert whole + "." + fraction + rest == "1.2.3";
    assert whole + "." + fraction == "1.2";
    ParseDecimalPrefix(whole, fraction, rest);
  }

  lemma DecimalSecondDot()
    ensures AllNumeric("1.2.3") && ParseDecimal("1.2.3") == Some(1.2)
  {
    DecimalOnePointTwo();
    SecondDotIgnored();
  }

  lemma DecimalLeadingDot()
    ensures AllNumeric(".500") && ParseDecimal(".500") == Some(0.5)
  {
    assert "500"[..2] == "50" && "50"[..1] == "5" && "5"[..0] == [];
    assert DigitsValue([]) == 0 && DigitsValue("500") == 500 && Pow10(3) == 1000;
    assert DigitsValue([]) as real + FractionValue("500") == 0.5;
    ParseDecimalOf(".500", [], "500");
  }

  lemma LabelExample()
    ensures ParsePrice(Text("$12.50")) == 12.5
  {
    assert NatText(12) == NatText(1) + [DigitChar(2)];
    assert PriceLabel(1250) == "$12.50";
    ParsePriceOfLabel(1250);
  }

  /** Texts whose digits do not start a number are worth 0. */
  lemma NoNumberExamples()
    ensures ParsePrice(Text(".")) == 0.0
    ensures ParsePrice(Text("..5")) == 0.0
  {
    StripKeepsNumeric(".");
    ParseDecimalNoneIff(".");
    ParsePriceOfText(".", ".", None);
    StripKeepsNumeric("..5");
    ParseDecimalNoneIff("..5");
    ParsePriceOfText("..5", "..5", None);
  }

  lemma ThousandsExamples()
    ensures ParsePrice(Text("$1,299.00")) == 1299.0
    ensures ParsePrice(Text("$1,299")) == 1299.0
  {
    StripThousands();
    DecimalThousands();
    ParsePriceOfText("$1,299.00", "1299.00", Some(1299.0));
    StripWholeThousands();
    DecimalWhole();
    ParsePriceOfText("$1,299", "1299", Some(1299.0));
  }

  lemma DotExamples()
    ensures ParsePrice(Text("1.2.3")) == 1.2
    ensures ParsePrice(Text("Tk. 500")) == 0.5
  {
    StripKeepsNumeric("1.2.3");
    DecimalSecondDot();
    ParsePriceOfText("1.2.3", "1.2.3", Some(1.2));
    StripWordDot();
    DecimalLeadingDot();
    ParsePriceOfText("Tk. 500", ".500", Some(0.5));
  }

  /**
   * Prices as product cards hold them: a label, a number, a value that is
   * neither number nor string, and a text without digits.
   */
  lemma ParsePriceExamples()
    ensures ParsePrice(Text("$12.50")) == 12.5
    ensures ParsePrice(Number(9.99)) == 9.99
    ensures ParsePrice(NotPriced) == 0.0
    ensures ParsePrice(Text("abc")) == 0.0
  {
    LabelExample();
  }
}
