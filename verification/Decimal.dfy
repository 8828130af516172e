/** Decimal numbers in a 64-bit word, as read from headers and printed into them. */
module Decimal {
  import opened Options
  import opened Text

  const WORD_MAX: nat := 0xFFFF_FFFF_FFFF_FFFF

  predicate AllDigits(s: string) { forall i :: 0 <= i < |s| ==> IsDigit(s[i]) }

  function DigitValue(c: char): nat
    requires IsDigit(c)
  {
    c as int - '0' as int
  }

  /** The number a text of digits denotes, without any bound. */
  function Value(s: string): nat
    requires AllDigits(s)
  {
    if s == "" then 0 else 10 * Value(s[..|s| - 1]) + DigitValue(s[|s| - 1])
  }

  /** The digits of a number, as std::to_string prints them. */
  function Print(n: nat): (s: string)
    ensures s != "" && AllDigits(s) && Value(s) == n
    ensures |s| > 1 ==> s[0] != '0'
  {
    var last := [(n % 10 + '0' as int) as char];
    if n < 10 then last else
      var s := Print(n / 10) + last;
      assert s[..|s| - 1] == Print(n / 10);
      s
  }

  /** What the overflow-checked digit loop accepts: nonempty digits whose value fits the word. */
  function ParseWord(s: string): Option<nat> {
    if s != "" && AllDigits(s) && Value(s) <= WORD_MAX then Some(Value(s)) else None
  }

  lemma {:induction false} ValueOfPrefix(s: string, k: nat)
    requires AllDigits(s) && k <= |s|
    ensures Value(s[..k]) <= Value(s)
    decreases |s|
  {
    if k == |s| {
      assert s[..k] == s;
    } else {
      var front := s[..|s| - 1];
      ValueOfPrefix(front, k);
      assert front[..k] == s[..k];
    }
  }

  lemma {:induction false} PrintOfValue(s: string)
    requires s != "" && AllDigits(s) && (|s| > 1 ==> s[0] != '0')
    ensures Print(Value(s)) == s
  {
    var front, last := s[..|s| - 1], s[|s| - 1];
    assert s == front + [last];
    assert (DigitValue(last) + '0' as int) as char == last;
    if |s| == 1 {
      assert front == "";
    } else {
      PrintOfValue(front);
      LeadingDigitPositive(front);
      assert Value(s) / 10 == Value(front) && Value(s) % 10 == DigitValue(last);
    }
  }

  lemma {:induction false} LeadingDigitPositive(s: string)
    requires s != "" && AllDigits(s) && s[0] != '0'
    ensures Value(s) > 0
  {
    if |s| > 1 {
      LeadingDigitPositive(s[..|s| - 1]);
    }
  }

  /** parseUnsignedInteger and parseContentLengthValue, which are the same loop. */
  method ParseUnsigned(value: string) returns (number: Option<nat>)
    ensures number.Some? <==> value != "" && AllDigits(value) && Value(value) <= WORD_MAX
    ensures number == ParseWord(value)
  {
    if value == "" {
      return None;
    }
    var parsed: nat := 0;
    for i := 0 to |value|
      invariant AllDigits(value[..i]) && parsed == Value(value[..i]) <= WORD_MAX
    {
      if !IsDigit(value[i]) {
        return None;
      }
      var digit := DigitValue(value[i]);
      assert value[..i + 1][..i] == value[..i];
      assert Value(value[..i + 1]) == 10 * parsed + digit;
      if parsed > (WORD_MAX - digit) / 10 {
        if AllDigits(value) {
          ValueOfPrefix(value, i + 1);
        }
        return None;
      }
      parsed := parsed * 10 + digit;
    }
    assert value[..|value|] == value;
    return Some(parsed);
  }
}
