/** The few Python `str` operations the views and the assistant bridge rely
    on: `strip()`, `lower()`, `isdigit()` and `int()` of a digit string. */
module PyText {
  import opened Common

  /** `str.isspace()` for one character: the characters Python's `strip()`
      removes by default. */
  predicate IsSpace(c: char) {
    c == ' ' || ('\t' <= c <= '\r') || ('\U{1C}' <= c <= '\U{1F}')
    || c == '\U{85}' || c == '\U{A0}' || c == '\U{1680}'
    || ('\U{2000}' <= c <= '\U{200A}') || c == '\U{2028}' || c == '\U{2029}'
    || c == '\U{202F}' || c == '\U{205F}' || c == '\U{3000}'
  }

  /** `s.lstrip()`. */
  function LStrip(s: string): (r: string)
    ensures |r| <= |s| && r == s[|s| - |r|..]
    ensures forall k :: 0 <= k < |s| - |r| ==> IsSpace(s[k])
    ensures r == [] || !IsSpace(r[0])
    decreases |s|
  {
    if s != [] && IsSpace(s[0]) then
      var r := LStrip(s[1..]);
      assert s[1..][|s| - 1 - |r|..] == s[|s| - |r|..];
      r
    else s
  }

  /** `s.rstrip()`. */
  function RStrip(s: string): (r: string)
    ensures |r| <= |s| && r == s[..|r|]
    ensures forall k :: |r| <= k < |s| ==> IsSpace(s[k])
    ensures r == [] || !IsSpace(r[|r| - 1])
    decreases |s|
  {
    if s != [] && IsSpace(s[|s| - 1]) then
      var r := RStrip(s[..|s| - 1]);
      assert s[..|s| - 1][..|r|] == s[..|r|];
      r
    else s
  }

  /** `s.strip()`: the middle of `s` between its leading and trailing
      whitespace. */
  function Strip(s: string): string {
    RStrip(LStrip(s))
  }

  /** What `strip()` leaves: no whitespace at either end, nothing at all
      exactly when `s` is all whitespace, and never more than `s`. */
  lemma StripFacts(s: string)
    ensures |Strip(s)| <= |s|
    ensures Strip(s) == [] || (!IsSpace(Strip(s)[0]) && !IsSpace(Strip(s)[|Strip(s)| - 1]))
    ensures Strip(s) == [] <==> forall k :: 0 <= k < |s| ==> IsSpace(s[k])
  {
    var l := LStrip(s);
    var r := RStrip(l);
    assert r != [] ==> r[0] == l[0];
    if r == [] {
      forall k | 0 <= k < |s| ensures IsSpace(s[k]) {
        if k >= |s| - |l| {
          assert s[k] == l[k - (|s| - |l|)];
        }
      }
    } else {
      assert !IsSpace(s[|s| - |l|]);
    }
  }

  /** Stripping twice strips no more than once. */
  lemma StripIdempotent(s: string)
    ensures Strip(Strip(s)) == Strip(s)
  {
    var t := Strip(s);
    StripFacts(s);
    if t != [] {
      assert LStrip(t) == t;
      assert RStrip(t) == t;
    }
  }

  /** `str.lower()` on one character. Only the ASCII capitals are mapped;
      the model compares lowered text against ASCII words only. */
  function LowerChar(c: char): char {
    if 'A' <= c <= 'Z' then (c as int + 32) as char else c
  }

  function Lower(s: string): (r: string)
    ensures |r| == |s|
    ensures forall k :: 0 <= k < |s| ==> r[k] == LowerChar(s[k])
  {
    seq(|s|, k requires 0 <= k < |s| => LowerChar(s[k]))
  }

  lemma LowerIdempotent(s: string)
    ensures Lower(Lower(s)) == Lower(s)
  {
    assert forall k :: 0 <= k < |s| ==> LowerChar(LowerChar(s[k])) == LowerChar(s[k]);
  }

  /** A character `int()` reads as a decimal digit. Only the ASCII digits are
      modelled; other Unicode decimal digits are not. */
  predicate IsDecimalChar(c: char) {
    '0' <= c <= '9'
  }

  /** `str.isdigit()` for one character: the decimal digits and the
      superscript and subscript digits, which are digits to `isdigit()` but
      not to `int()`. */
  predicate IsDigitChar(c: char) {
    IsDecimalChar(c)
    || c == '\U{B2}' || c == '\U{B3}' || c == '\U{B9}'
    || c == '\U{2070}' || ('\U{2074}' <= c <= '\U{2079}') || ('\U{2080}' <= c <= '\U{2089}')
  }

  /** `s.isdigit()`: non-empty and every character a digit. */
  predicate IsDigits(s: string) {
    s != [] && forall k :: 0 <= k < |s| ==> IsDigitChar(s[k])
  }

  /** Non-empty and every character a decimal digit. */
  predicate IsDecimal(s: string) {
    s != [] && forall k :: 0 <= k < |s| ==> IsDecimalChar(s[k])
  }

  function DigitValue(c: char): nat {
    if IsDecimalChar(c) then c as int - '0' as int else 0
  }

  /** The value of a decimal digit string, most significant digit first. */
  function DecimalValue(s: string): nat
    decreases |s|
  {
    if s == [] then 0 else DecimalValue(s[..|s| - 1]) * 10 + DigitValue(s[|s| - 1])
  }

  /** `str(n)`. */
  function NatToDecimal(n: nat): string
    decreases n
  {
    (if n < 10 then [] else NatToDecimal(n / 10)) + [('0' as int + n % 10) as char]
  }

  /** The last character of `str(n)` is the digit `n % 10`. */
  lemma NatToDecimalLast(n: nat)
    ensures var c := ('0' as int + n % 10) as char;
            && NatToDecimal(n) == (if n < 10 then [] else NatToDecimal(n / 10)) + [c]
            && IsDecimalChar(c) && DigitValue(c) == n % 10
  {
  }

  /** `str(n)` is a non-empty string of decimal digits. */
  lemma {:induction false} NatToDecimalIsDecimal(n: nat)
    ensures IsDecimal(NatToDecimal(n))
    decreases n
  {
    NatToDecimalLast(n);
    if n >= 10 {
      NatToDecimalIsDecimal(n / 10);
    }
  }

  /** `int(str(n)) == n`. */
  lemma {:induction false} NatToDecimalValue(n: nat)
    ensures DecimalValue(NatToDecimal(n)) == n
    decreases n
  {
    var s := NatToDecimal(n);
    NatToDecimalLast(n);
    var pre := if n < 10 then [] else NatToDecimal(n / 10);
    assert s[..|s| - 1] == pre;
    if n >= 10 {
      NatToDecimalValue(n / 10);
    }
    assert DecimalValue(pre) == n / 10;
    assert DecimalValue(s) == DecimalValue(pre) * 10 + n % 10;
  }

  /** `int(str(n)) == n`, and `str(n)` passes both digit tests. */
  lemma DecimalRoundTrip(n: nat)
    ensures IsDecimal(NatToDecimal(n)) && IsDigits(NatToDecimal(n))
    ensures DecimalValue(NatToDecimal(n)) == n
  {
    NatToDecimalIsDecimal(n);
    NatToDecimalValue(n);
  }

  /** What `int(s) if s.isdigit() else None` does as written: a digit string
      that is not decimal (`"²"`) makes `int()` raise `ValueError`. */
  datatype Outcome<T> = Returned(value: T) | Raised

  function DigitsToIntAsWritten(s: string): (r: Outcome<Option<nat>>)
    ensures r.Raised? <==> IsDigits(s) && !IsDecimal(s)
  {
    if IsDigits(s) then
      if IsDecimal(s) then Returned(Some(DecimalValue(s))) else Raised
    else Returned(None)
  }

  /** The crash: a superscript two passes `isdigit()` and `int()` refuses it. */
  lemma SuperscriptRaises()
    ensures IsDigits("\U{B2}")
    ensures DigitsToIntAsWritten("\U{B2}") == Raised
  {
    assert !IsDecimalChar("\U{B2}"[0]);
  }

  /** The parse the code means: a value exactly for a non-empty string of
      decimal digits, `None` for everything else. */
  function DigitsToInt(s: string): (r: Option<nat>)
    ensures r.Some? <==> IsDecimal(s)
    ensures DigitsToIntAsWritten(s).Returned? ==> r == DigitsToIntAsWritten(s).value
  {
    if IsDecimal(s) then Some(DecimalValue(s)) else None
  }

  /** Every printed natural number parses back to itself. */
  lemma DigitsToIntRoundTrip(n: nat)
    ensures DigitsToInt(NatToDecimal(n)) == Some(n)
  {
    DecimalRoundTrip(n);
  }

  /** A sign, an empty string or a decimal point is not a number. */
  lemma DigitsToIntRejects()
    ensures DigitsToInt("-3") == None
    ensures DigitsToInt("") == None
    ensures DigitsToInt("1.5") == None
  {
    assert !IsDecimalChar("-3"[0]);
    assert !IsDecimalChar("1.5"[1]);
  }
}
