/**
 * The text `list_print` produces: each value as printf's `%d` renders it
 * (an optional minus sign, then decimal digits without leading zeros),
 * followed by one space, all between "[" and "]\n". Parsing the text back
 * is the partner that shows the rendering loses nothing.
 */
module Decimal {

  function DigitChar(d: nat): (c: char)
    requires d < 10
    ensures '0' <= c <= '9'
  {
    ('0' as int + d) as char
  }

  function DigitValue(c: char): int {
    c as int - '0' as int
  }

  predicate IsDigit(c: char) {
    '0' <= c <= '9'
  }

  /** The decimal digits of `n`, most significant first, no leading zeros. */
  function Digits(n: nat): (s: string)
    ensures |s| > 0
    ensures forall i :: 0 <= i < |s| ==> IsDigit(s[i])
  {
    if n < 10 then [DigitChar(n)] else Digits(n / 10) + [DigitChar(n % 10)]
  }

  /** No leading zero: the only number whose digits start with '0' is 0 itself. */
  lemma {:induction false} DigitsCanonical(n: nat)
    ensures n > 0 ==> Digits(n)[0] != '0'
  {
    if n >= 10 {
      DigitsCanonical(n / 10);
    }
  }

  /** What `%d` prints for `n`. */
  function DecimalString(n: int): (s: string)
    ensures |s| > 0
    ensures forall i :: 0 <= i < |s| ==> s[i] != ' '
  {
    if n < 0 then "-" + Digits(-n) else Digits(n)
  }

  function ParseDigits(s: string): int {
    if s == [] then 0 else ParseDigits(s[..|s| - 1]) * 10 + DigitValue(s[|s| - 1])
  }

  function ParseDecimal(s: string): int {
    if |s| > 0 && s[0] == '-' then -ParseDigits(s[1..]) else ParseDigits(s)
  }

  lemma {:induction false} DigitsRoundTrip(n: nat)
    ensures ParseDigits(Digits(n)) == n
  {
    if n >= 10 {
      var s := Digits(n);
      assert s[..|s| - 1] == Digits(n / 10);
      DigitsRoundTrip(n / 10);
    }
  }

  lemma DecimalRoundTrip(n: int)
    ensures ParseDecimal(DecimalString(n)) == n
  {
    if n < 0 {
      assert DecimalString(n)[1..] == Digits(-n);
      DigitsRoundTrip(-n);
    } else {
      assert IsDigit(Digits(n)[0]);
      DigitsRoundTrip(n);
    }
  }

  /** The body of a printed list: every value followed by one space. */
  function Items(xs: seq<int>): string {
    if xs == [] then "" else DecimalString(xs[0]) + " " + Items(xs[1..])
  }

  /** The whole text `list_print` writes for the values `xs`. */
  function Rendering(xs: seq<int>): string {
    "[" + Items(xs) + "]\n"
  }

  lemma {:induction false} ItemsAppend(xs: seq<int>, ys: seq<int>)
    ensures Items(xs + ys) == Items(xs) + Items(ys)
  {
    if xs == [] {
      assert xs + ys == ys;
    } else {
      assert (xs + ys)[1..] == xs[1..] + ys;
      ItemsAppend(xs[1..], ys);
    }
  }

  /** The position of the first space in `s`, or |s| when there is none. */
  function FirstSpace(s: string): (k: nat)
    ensures k <= |s|
    ensures forall j :: 0 <= j < k ==> s[j] != ' '
    ensures k < |s| ==> s[k] == ' '
  {
    if s == [] || s[0] == ' ' then 0 else 1 + FirstSpace(s[1..])
  }

  /** Reads back a sequence of space-terminated decimal numbers. */
  function ParseItems(s: string): seq<int>
    decreases |s|
  {
    if s == [] then []
    else
      var k := FirstSpace(s);
      if k == |s| then [ParseDecimal(s)]
      else [ParseDecimal(s[..k])] + ParseItems(s[k + 1..])
  }

  /** Reads back the text of a printed list; anything else gives []. */
  function ParseRendering(out: string): seq<int> {
    if |out| >= 3 && out[0] == '[' && out[|out| - 2..] == "]\n"
    then ParseItems(out[1..|out| - 2])
    else []
  }

  lemma {:induction false} ItemsRoundTrip(xs: seq<int>)
    ensures ParseItems(Items(xs)) == xs
  {
    if xs != [] {
      var d, rest := DecimalString(xs[0]), Items(xs[1..]);
      var s := d + " " + rest;
      assert Items(xs) == s;
      var k := FirstSpace(s);
      assert s[|d|] == ' ';
      assert k == |d|;
      assert s[..k] == d && s[k + 1..] == rest;
      DecimalRoundTrip(xs[0]);
      ItemsRoundTrip(xs[1..]);
    }
  }

  /** The printed text determines the list's contents exactly. */
  lemma RenderingRoundTrip(xs: seq<int>)
    ensures ParseRendering(Rendering(xs)) == xs
  {
    var out := Rendering(xs);
    assert out[1..|out| - 2] == Items(xs);
    assert out[|out| - 2..] == "]\n";
    ItemsRoundTrip(xs);
  }

  lemma RenderingInjective(xs: seq<int>, ys: seq<int>)
    requires Rendering(xs) == Rendering(ys)
    ensures xs == ys
  {
    RenderingRoundTrip(xs);
    RenderingRoundTrip(ys);
  }
}
