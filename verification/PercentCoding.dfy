/** Percent coding of request targets (section 2.1 of RFC 3986). */
module PercentCoding {
  import opened Options
  import opened Text
  import opened Hexadecimal

  /** A string of bytes: every character code is below 256. */
  predicate IsBytes(s: string) { forall i :: 0 <= i < |s| ==> (s[i] as int) < 256 }

  predicate IsUnreserved(c: char) {
    IsAlnum(c) || c == '-' || c == '.' || c == '_' || c == '~'
  }

  /** A percent sign followed by two hexadecimal digits. */
  predicate IsEscape(s: string, i: nat) {
    i + 2 < |s| && s[i] == '%' && HexValue(s[i + 1]) >= 0 && HexValue(s[i + 2]) >= 0
  }

  function EscapedChar(s: string, i: nat): char
    requires IsEscape(s, i)
  {
    (HexValue(s[i + 1]) * 16 + HexValue(s[i + 2])) as char
  }

  /** The text that `s` decodes to from position i on; None at a broken escape. */
  function DecodeFrom(s: string, i: nat): Option<string>
    decreases |s| - i
  {
    if i >= |s| then Some("")
    else if s[i] != '%' then
      var rest := DecodeFrom(s, i + 1);
      if rest.None? then None else Some([s[i]] + rest.value)
    else if !IsEscape(s, i) then None
    else
      var rest := DecodeFrom(s, i + 3);
      if rest.None? then None else Some([EscapedChar(s, i)] + rest.value)
  }

  /** urlDecode: the decoded text, of which a failed call leaves only a part. */
  method UrlDecode(encoded: string) returns (ok: bool, decoded: string)
    ensures ok <==> DecodeFrom(encoded, 0).Some?
    ensures ok ==> decoded == DecodeFrom(encoded, 0).value
  {
    hide IsEscape, EscapedChar;
    decoded := "";
    var i := 0;
    while i < |encoded|
      invariant 0 <= i
      invariant DecodeFrom(encoded, 0).Some? <==> DecodeFrom(encoded, i).Some?
      invariant DecodeFrom(encoded, i).Some? ==>
                  DecodeFrom(encoded, 0).value == decoded + DecodeFrom(encoded, i).value
      decreases |encoded| - i
    {
      if encoded[i] != '%' {
        Regroup(decoded, encoded[i], DecodeFrom(encoded, i + 1));
        decoded := decoded + [encoded[i]];
        i := i + 1;
      } else {
        if !IsEscape(encoded, i) {
          return false, decoded;
        }
        Regroup(decoded, EscapedChar(encoded, i), DecodeFrom(encoded, i + 3));
        decoded := decoded + [EscapedChar(encoded, i)];
        i := i + 3;
      }
    }
    assert decoded + "" == decoded;
    return true, decoded;
  }

  lemma Regroup(decoded: string, c: char, rest: Option<string>)
    ensures rest.Some? ==> decoded + ([c] + rest.value) == (decoded + [c]) + rest.value
  {
  }

  /** The positions decoding visits: one step over plain characters, three over escapes. */
  ghost predicate Reaches(s: string, i: nat, j: nat)
    decreases |s| - i
  {
    i == j ||
    (i < |s| && if s[i] != '%' then Reaches(s, i + 1, j) else IsEscape(s, i) && Reaches(s, i + 3, j))
  }

  /** Decoding fails iff it reaches a percent sign that two hexadecimal digits do not follow. */
  lemma {:induction false} DecodeFailsExactly(s: string, i: nat)
    ensures DecodeFrom(s, i).None?
       <==> exists j: nat :: j < |s| && Reaches(s, i, j) && s[j] == '%' && !IsEscape(s, j)
    decreases |s| - i
  {
    hide IsEscape, EscapedChar;
    if i >= |s| {
    } else if s[i] == '%' && !IsEscape(s, i) {
      assert Reaches(s, i, i);
    } else {
      var next := if s[i] != '%' then i + 1 else i + 3;
      DecodeFailsExactly(s, next);
      assert forall j: nat :: Reaches(s, i, j) <==> i == j || Reaches(s, next, j);
    }
  }

  /** How one byte is written into a path segment. */
  function EncodeChar(c: char): (s: string)
    requires (c as int) < 256
    ensures s != "" && forall i :: 0 <= i < |s| ==> s[i] == '%' || IsUnreserved(s[i])
  {
    if IsUnreserved(c) then [c] else ['%', UpperDigit(c as int / 16), UpperDigit(c as int % 16)]
  }

  function EncodeSegment(s: string): (r: string)
    requires IsBytes(s)
    ensures forall i :: 0 <= i < |r| ==> r[i] == '%' || IsUnreserved(r[i])
  {
    if s == "" then "" else EncodeChar(s[0]) + EncodeSegment(s[1..])
  }

  /** urlEncodePathSegment. */
  method UrlEncodePathSegment(value: string) returns (encoded: string)
    requires IsBytes(value)
    ensures encoded == EncodeSegment(value)
  {
    hide EncodeChar;
    encoded := "";
    assert value[0..] == value;
    for i := 0 to |value|
      invariant EncodeSegment(value) == encoded + EncodeSegment(value[i..])
    {
      assert value[i..][1..] == value[i + 1..];
      encoded := encoded + EncodeChar(value[i]);
    }
  }

  function Prepend(c: char, rest: Option<string>): Option<string> {
    if rest.None? then None else Some([c] + rest.value)
  }

  /** Decoding the text of one written byte yields that byte and goes on after it. */
  lemma DecodeOne(prefix: string, c: char, rest: string)
    requires (c as int) < 256
    ensures DecodeFrom(prefix + EncodeChar(c) + rest, |prefix|)
         == Prepend(c, DecodeFrom(prefix + EncodeChar(c) + rest, |prefix + EncodeChar(c)|))
  {
    var s := prefix + EncodeChar(c) + rest;
    if IsUnreserved(c) {
      assert s[|prefix|] == c;
    } else {
      assert s[|prefix|] == '%';
      assert s[|prefix| + 1] == UpperDigit(c as int / 16);
      assert s[|prefix| + 2] == UpperDigit(c as int % 16);
    }
  }

  lemma {:induction false} DecodeEncodedFrom(prefix: string, s: string)
    requires IsBytes(s)
    ensures DecodeFrom(prefix + EncodeSegment(s), |prefix|) == Some(s)
    decreases |s|
  {
    hide EncodeChar, DecodeFrom;
    if s == "" {
      DecodeAtEnd(prefix + "");
    } else {
      var rest := EncodeSegment(s[1..]);
      DecodeOne(prefix, s[0], rest);
      DecodeEncodedFrom(prefix + EncodeChar(s[0]), s[1..]);
      assert prefix + EncodeSegment(s) == prefix + EncodeChar(s[0]) + rest;
      assert [s[0]] + s[1..] == s;
    }
  }

  lemma DecodeAtEnd(s: string)
    ensures DecodeFrom(s, |s|) == Some("")
  {
  }

  /** Decoding an encoded path segment returns it, for every byte string. */
  lemma RoundTrip(s: string)
    requires IsBytes(s)
    ensures DecodeFrom(EncodeSegment(s), 0) == Some(s)
  {
    DecodeEncodedFrom("", s);
    assert "" + EncodeSegment(s) == EncodeSegment(s);
  }

  /** Text without a percent sign decodes to itself. */
  lemma {:induction false} PlainIsItself(s: string, i: nat)
    requires i <= |s| && '%' !in s
    ensures DecodeFrom(s, i) == Some(s[i..])
    decreases |s| - i
  {
    if i < |s| {
      PlainIsItself(s, i + 1);
      assert s[i] != '%' && [s[i]] + s[i + 1..] == s[i..];
    } else {
      assert s[i..] == "";
    }
  }

  /** A letter, a digit, or one of the four marks that stand for themselves (section 2.3 of RFC 3986). */
  predicate StandsForItself(c: char) {
    '0' <= c <= '9' || 'a' <= c <= 'z' || 'A' <= c <= 'Z' || c in "-._~"
  }

  /** Such characters are written as they are, and every other byte as a percent sign and its two upper-case digits, the high one first. */
  lemma EncodedCharIs(c: char)
    requires (c as int) < 256
    ensures StandsForItself(c) ==> EncodeChar(c) == [c]
    ensures !StandsForItself(c) ==>
              var r := EncodeChar(c);
              && |r| == 3 && r[0] == '%' && IsUpperHex(r[1]) && IsUpperHex(r[2])
              && c as int == 16 * HexValue(r[1]) + HexValue(r[2])
  {
  }

  predicate IsUpperHex(c: char) { '0' <= c <= '9' || 'A' <= c <= 'F' }

  /** A segment of characters that stand for themselves is written as it is. */
  lemma {:induction false} UnreservedIsItself(s: string)
    requires IsBytes(s) && forall i :: 0 <= i < |s| ==> StandsForItself(s[i])
    ensures EncodeSegment(s) == s
  {
    hide EncodeChar, StandsForItself;
    if s != "" {
      EncodedCharIs(s[0]);
      UnreservedIsItself(s[1..]);
    }
  }

  /** find_first_of("?#"): where a query or fragment starts. */
  function QueryStart(path: string, from: nat): (r: nat)
    requires from <= |path|
    ensures from <= r <= |path|
    decreases |path| - from
  {
    if from == |path| || path[from] == '?' || path[from] == '#' then from else QueryStart(path, from + 1)
  }

  function StripQueryAndFragment(path: string): string {
    path[..QueryStart(path, 0)]
  }

  lemma {:induction false} NoQuery(path: string, from: nat)
    requires from <= |path| && '?' !in path && '#' !in path
    ensures QueryStart(path, from) == |path|
    decreases |path| - from
  {
    if from < |path| {
      NoQuery(path, from + 1);
    }
  }

  /** An encoded segment holds no delimiter, so it survives query stripping and path splitting whole. */
  lemma EncodedHasNoDelimiter(s: string)
    requires IsBytes(s)
    ensures var r := EncodeSegment(s);
            '/' !in r && '?' !in r && '#' !in r && StripQueryAndFragment(r) == r
  {
    hide EncodeSegment;
    var r := EncodeSegment(s);
    NoQuery(r, 0);
  }
}
