/** Hexadecimal digits and numbers. */
module Hexadecimal {
  import opened Text

  /** hexValue: the value of a digit in either case, -1 for any other character. */
  function HexValue(c: char): (v: int)
    ensures -1 <= v < 16
  {
    if '0' <= c <= '9' then c as int - '0' as int
    else if 'a' <= c <= 'f' then c as int - 'a' as int + 10
    else if 'A' <= c <= 'F' then c as int - 'A' as int + 10
    else -1
  }

  function LowerDigit(v: nat): (c: char)
    requires v < 16
    ensures HexValue(c) == v && IsAlnum(c)
  {
    if v < 10 then (v + '0' as int) as char else (v - 10 + 'a' as int) as char
  }

  function UpperDigit(v: nat): (c: char)
    requires v < 16
    ensures HexValue(c) == v && IsAlnum(c)
  {
    if v < 10 then (v + '0' as int) as char else (v - 10 + 'A' as int) as char
  }

  /** The number a text denotes in base sixteen; characters that are no digits count as -1. */
  function HexNumber(s: string): int {
    if s == "" then 0 else 16 * HexNumber(s[..|s| - 1]) + HexValue(s[|s| - 1])
  }

  /** toHex: lower-case digits without leading zeros. */
  function ToHex(n: nat): (s: string)
    ensures s != "" && HexNumber(s) == n
    ensures forall i :: 0 <= i < |s| ==> IsAlnum(s[i])
  {
    if n < 16 then [LowerDigit(n)] else
    var front := ToHex(n / 16);
    var s := front + [LowerDigit(n % 16)];
    assert s[..|s| - 1] == front;
    s
  }
}
