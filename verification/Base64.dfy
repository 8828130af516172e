/** Base64 as WebSocketHandshake encodes and decodes it (section 4 of RFC 4648). */
module Base64 {
  import opened Options

  type Byte = b: nat | b < 256
  type Sextet = v: nat | v < 64

  /** base64Value: the sextet of a symbol, -1 outside the alphabet. */
  function SymbolValue(c: char): (v: int)
    ensures -1 <= v < 64
  {
    if 'A' <= c <= 'Z' then c as int - 'A' as int
    else if 'a' <= c <= 'z' then c as int - 'a' as int + 26
    else if '0' <= c <= '9' then c as int - '0' as int + 52
    else if c == '+' then 62
    else if c == '/' then 63
    else -1
  }

  /** The symbol at a position of the printed alphabet: A-Z, a-z, 0-9, + and /. */
  function Symbol(v: Sextet): char {
    if v < 26 then (v + 'A' as int) as char
    else if v < 52 then (v - 26 + 'a' as int) as char
    else if v < 62 then (v - 52 + '0' as int) as char
    else if v == 62 then '+' else '/'
  }

  /** The printed alphabet is the inverse of base64Value, symbol by symbol. */
  lemma SymbolInverse(v: Sextet)
    ensures SymbolValue(Symbol(v)) == v && Symbol(v) != '='
  {
  }

  /** The byte completed by the k-th sextet, from that sextet and the one before it. */
  function CompletedByte(before: Sextet, last: Sextet, k: nat): Byte
    requires k % 4 != 1
  {
    if k % 4 == 2 then before * 4 + last / 16
    else if k % 4 == 3 then (before % 16) * 16 + last / 4
    else (before % 4) * 64 + last
  }

  /** Whole bytes in k sextets. */
  function WholeBytes(k: nat): nat { 3 * k / 4 }

  lemma WholeBytesNext(k: nat)
    ensures WholeBytes(k + 1) == WholeBytes(k) + if (k + 1) % 4 == 1 then 0 else 1
  {
    var q, r := k / 4, k % 4;
    Div4(3 * k, 3 * q + (if r == 0 then 0 else r - 1), if r == 0 then 0 else 4 - r);
    Div4(3 * (k + 1), 3 * q + r, 3 - r);
  }

  /** The bytes a sequence of sextets spells, whole bytes only. */
  function Unpack(v: seq<Sextet>): (bytes: seq<Byte>)
    ensures |bytes| == WholeBytes(|v|)
  {
    if v == [] then [] else
    var front := Unpack(v[..|v| - 1]);
    WholeBytesNext(|v| - 1);
    if |v| % 4 == 1 then front else front + [CompletedByte(v[|v| - 2], v[|v| - 1], |v|)]
  }

  /** The symbols of a text before its padding, as sextets; None if one is outside the alphabet. */
  function Sextets(text: string): (r: Option<seq<Sextet>>)
    ensures r.Some? ==> |r.value| == |text|
  {
    if text == "" then Some([]) else
    var front := Sextets(text[..|text| - 1]);
    var last := SymbolValue(text[|text| - 1]);
    if front.None? || last < 0 then None else Some(front.value + [last])
  }

  /** Number of '=' at the end of a text. */
  function Pads(text: string): (p: nat)
    ensures p <= |text|
  {
    if text == "" || text[|text| - 1] != '=' then 0 else 1 + Pads(text[..|text| - 1])
  }

  /** What a padded text denotes: up to two pads at the end, alphabet symbols before them. */
  function DecodeText(text: string): Option<seq<Byte>> {
    if text == "" || |text| % 4 != 0 || Pads(text) > 2 then None else
    var sextets := Sextets(text[..|text| - Pads(text)]);
    if sextets.None? then None else Some(Unpack(sextets.value))
  }

  /** The two's complement value that a 32-bit int keeps of an integer. */
  function Wrap32(x: int): (w: int)
    ensures -0x8000_0000 <= w < 0x8000_0000
  {
    (x + 0x8000_0000) % 0x1_0000_0000 - 0x8000_0000
  }

  /** Wrapping changes an integer by a multiple of the word, so every low remainder is kept. */
  lemma WrapKeepsLowBits(x: int)
    ensures Wrap32(x) % 4096 == x % 4096
  {
    var w := Wrap32(x);
    var turns := (x + 0x8000_0000) / 0x1_0000_0000;
    assert x == w + turns * 0x1_0000_0000;
    assert x - w == 4096 * (turns * 0x10_0000);
    SameRemainder(x, w, turns * 0x10_0000);
  }

  lemma SameRemainder(x: int, w: int, k: int)
    requires x - w == 4096 * k
    ensures x % 4096 == w % 4096
  {
    var q := w / 4096;
    assert w == 4096 * q + w % 4096;
    assert x == 4096 * (q + k) + w % 4096;
  }

  /** The byte the shifted accumulator shows depends on its low twelve bits only. */
  lemma ShiftedByte(acc: int, before: Sextet, last: Sextet, k: nat)
    requires acc % 4096 == before * 64 + last && k % 4 != 1
    ensures k % 4 == 2 ==> acc / 16 % 256 == CompletedByte(before, last, k)
    ensures k % 4 == 3 ==> acc / 4 % 256 == CompletedByte(before, last, k)
    ensures k % 4 == 0 ==> acc % 256 == CompletedByte(before, last, k)
  {
    var q := acc / 4096;
    Div16(acc, 256 * q + (before * 4 + last / 16), last % 16);
    Div4(acc, 1024 * q + (before * 16 + last / 4), last % 4);
    Mod256(acc / 16, q, before * 4 + last / 16);
    Mod256(acc / 4, 4 * q + before / 16, before % 16 * 16 + last / 4);
    Mod256(acc, 16 * q + before / 4, before % 4 * 64 + last);
  }

  lemma Div16(x: int, q: int, r: int)
    requires x == 16 * q + r && 0 <= r < 16
    ensures x / 16 == q
  {
  }

  lemma Div4(x: int, q: int, r: int)
    requires x == 4 * q + r && 0 <= r < 4
    ensures x / 4 == q
  {
  }

  lemma Mod256(x: int, q: int, r: int)
    requires x == 256 * q + r && 0 <= r < 256
    ensures x % 256 == r
  {
  }

  lemma Mod64(x: int, q: int, r: int)
    requires x == 64 * q + r && 0 <= r < 64
    ensures x / 64 == q && x % 64 == r
  {
  }

  /** One more sextet shifted in: the low twelve bits are the last two sextets, wrapped or not. */
  lemma ShiftIn(bitBuffer: int, before: Sextet, value: Sextet)
    requires bitBuffer % 64 == before
    ensures Wrap32(bitBuffer * 64 + value) % 4096 == before * 64 + value
    ensures Wrap32(bitBuffer * 64 + value) % 64 == value
  {
    hide Wrap32;
    var q := bitBuffer / 64;
    var shifted := bitBuffer * 64 + value;
    var w := Wrap32(shifted);
    WrapKeepsLowBits(shifted);
    Mod4096(shifted, q, before * 64 + value);
    Mod64(w, w / 4096 * 64 + before, value);
  }

  lemma Mod4096(x: int, q: int, r: int)
    requires x == 4096 * q + r && 0 <= r < 4096
    ensures x % 4096 == r
  {
  }

  lemma {:induction false} PadsAreEquals(text: string)
    ensures forall j :: |text| - Pads(text) <= j < |text| ==> text[j] == '='
  {
    if text != "" && text[|text| - 1] == '=' {
      PadsAreEquals(text[..|text| - 1]);
    }
  }

  /** A symbol outside the alphabet before the padding makes the whole text undecodable. */
  lemma {:induction false} BadSymbol(text: string, i: nat)
    requires i < |text| && SymbolValue(text[i]) < 0
    ensures Sextets(text).None?
    decreases |text|
  {
    if i < |text| - 1 {
      BadSymbol(text[..|text| - 1], i);
    }
  }

  lemma BadInside(text: string, i: nat)
    requires i < |text| - Pads(text) && SymbolValue(text[i]) < 0
    ensures DecodeText(text).None?
  {
    BadSymbol(text[..|text| - Pads(text)], i);
  }

  /** A symbol after a pad, or a third pad, can never be repaired by what follows. */
  lemma PadInside(text: string, i: nat, pads: nat)
    requires 0 < pads <= i < |text| && pads == Pads(text[..i])
    requires text[i] != '=' || pads == 2
    ensures DecodeText(text).None?
  {
    PadsAreEquals(text);
    PadsAreEquals(text[..i]);
    assert text[i - pads] == text[..i][i - pads] == '=';
    if i - pads < |text| - Pads(text) {
      BadInside(text, i - pads);
    }
  }

  /** Bits waiting in the accumulator after k sextets. */
  function BitsLeft(k: nat): (n: nat)
    ensures n == 6 * k % 8
  {
    var q, r := k / 4, k % 4;
    assert 6 * k == 8 * (3 * q) + 6 * r;
    if r == 0 then 0 else if r == 1 then 6 else if r == 2 then 4 else 2
  }

  lemma BitsLeftNext(k: nat)
    ensures BitsLeft(k + 1) == if BitsLeft(k) + 6 >= 8 then BitsLeft(k) - 2 else BitsLeft(k) + 6
    ensures BitsLeft(k) + 6 >= 8 <==> (k + 1) % 4 != 1
    ensures (k + 1) % 4 == 2 <==> BitsLeft(k + 1) == 4
    ensures (k + 1) % 4 == 3 <==> BitsLeft(k + 1) == 2
    ensures (k + 1) % 4 == 0 <==> BitsLeft(k + 1) == 0
  {
  }

  /** Arithmetic right shift by the bit counts that occur. */
  function ShiftRight(x: int, bits: nat): int {
    if bits == 0 then x else if bits == 2 then x / 4 else if bits == 4 then x / 16 else x / 64
  }

  /**
   * base64Decode with its 32-bit accumulator that is shifted and never masked:
   * the wrapped bits never reach the output.
   */
  method Decode(encoded: string) returns (decoded: Option<seq<Byte>>)
    ensures decoded == DecodeText(encoded)
  {
    hide DecodeText, SymbolValue, Wrap32, CompletedByte, BitsLeft, Sextets, Unpack, Pads;
    if encoded == "" || |encoded| % 4 != 0 {
      EmptyOrRagged(encoded);
      return None;
    }
    var bytes: seq<Byte> := [];
    var bitBuffer, bitCount := 0, 0;
    var paddingCount := 0;
    ghost var v: seq<Sextet> := [];
    NothingAtStart();
    for i := 0 to |encoded|
      invariant paddingCount == Pads(encoded[..i]) <= 2
      invariant Sextets(encoded[..i - paddingCount]) == Some(v)
      invariant bytes == Unpack(v) && bitCount == BitsLeft(|v|)
      invariant |v| >= 1 ==> bitBuffer % 64 == v[|v| - 1]
    {
      var c := encoded[i];
      PrefixNext(encoded, i);
      if c == '=' {
        if paddingCount == 2 {
          PadInside(encoded, i, paddingCount);
          return None;
        }
        paddingCount := paddingCount + 1;
      } else {
        if paddingCount > 0 {
          PadInside(encoded, i, paddingCount);
          return None;
        }
        var value := SymbolValue(c);
        if value < 0 {
          PadsAreEquals(encoded);
          BadInside(encoded, i);
          return None;
        }
        ShiftIn(bitBuffer, bitBuffer % 64, value);
        bitBuffer := Wrap32(bitBuffer * 64 + value);
        bitCount := bitCount + 6;
        BitsLeftNext(|v|);
        ghost var more := v + [value];
        UnpackNext(v, value);
        if bitCount >= 8 {
          bitCount := bitCount - 8;
          ShiftedByte(bitBuffer, v[|v| - 1], value, |v| + 1);
          bytes := bytes + [ShiftRight(bitBuffer, bitCount) % 256];
        }
        v := more;
      }
    }
    assert encoded[..|encoded|] == encoded;
    WellPadded(encoded, v);
    return Some(bytes);
  }

  lemma NothingAtStart()
    ensures BitsLeft(0) == 0 && Pads("") == 0 && Sextets("") == Some([]) && Unpack([]) == []
  {
  }

  lemma PrefixNext(text: string, i: nat)
    requires i < |text|
    ensures Pads(text[..i + 1]) == if text[i] == '=' then Pads(text[..i]) + 1 else 0
    ensures Sextets(text[..i + 1]) == (var front, last := Sextets(text[..i]), SymbolValue(text[i]);
                                       if front.None? || last < 0 then None else Some(front.value + [last]))
  {
    assert text[..i + 1][..i] == text[..i];
  }

  lemma UnpackNext(v: seq<Sextet>, last: Sextet)
    ensures Unpack(v + [last])
         == Unpack(v) + if (|v| + 1) % 4 == 1 then [] else [CompletedByte(v[|v| - 1], last, |v| + 1)]
  {
    assert (v + [last])[..|v|] == v;
  }

  lemma EmptyOrRagged(text: string)
    requires text == "" || |text| % 4 != 0
    ensures DecodeText(text).None?
  {
  }

  lemma WellPadded(text: string, v: seq<Sextet>)
    requires text != "" && |text| % 4 == 0 && Pads(text) <= 2
    requires Sextets(text[..|text| - Pads(text)]) == Some(v)
    ensures DecodeText(text) == Some(Unpack(v))
  {
  }

  /** An accepted text of n characters with p pads decodes to 3n/4 - p bytes. */
  lemma DecodedLength(text: string)
    requires DecodeText(text).Some?
    ensures |DecodeText(text).value| == 3 * |text| / 4 - Pads(text)
  {
    hide Unpack, Sextets, Pads;
    var q, p := |text| / 4, Pads(text);
    assert |text| == 4 * q;
    Div4(3 * (|text| - p), 3 * q - p, p);
    Div4(3 * |text|, 3 * q, 0);
  }

  /** The four sextets of three bytes. */
  function Sextet1(a: Byte): Sextet { a / 4 }
  function Sextet2(a: Byte, b: Byte): Sextet { a % 4 * 16 + b / 16 }
  function Sextet3(b: Byte, c: Byte): Sextet { b % 16 * 4 + c / 64 }
  function Sextet4(c: Byte): Sextet { c % 64 }

  /** The symbols of up to three bytes, padded to four. */
  function EncodeGroup(bytes: seq<Byte>): (text: string)
    requires 1 <= |bytes| <= 3
    ensures |text| == 4
  {
    var a, b, c := bytes[0], if |bytes| > 1 then bytes[1] else 0, if |bytes| > 2 then bytes[2] else 0;
    [Symbol(Sextet1(a)),
     Symbol(Sextet2(a, b)),
     if |bytes| > 1 then Symbol(Sextet3(b, c)) else '=',
     if |bytes| > 2 then Symbol(Sextet4(c)) else '=']
  }

  /** The encoding, group by group from the front. */
  function EncodeText(bytes: seq<Byte>): string {
    if bytes == [] then "" else
    if |bytes| <= 3 then EncodeGroup(bytes) else EncodeGroup(bytes[..3]) + EncodeText(bytes[3..])
  }

  /** base64Encode, for any number of bytes, with the 24-bit word it shifts. */
  method Encode(bytes: seq<Byte>) returns (encoded: string)
    ensures encoded == EncodeText(bytes)
  {
    hide Symbol, EncodeGroup;
    encoded := "";
    var i := 0;
    assert bytes[0..] == bytes;
    while i < |bytes|
      invariant 0 <= i
      invariant EncodeText(bytes) == encoded + EncodeText(if i <= |bytes| then bytes[i..] else [])
      decreases |bytes| - i
    {
      var remaining := |bytes| - i;
      var octetA: nat := bytes[i];
      var octetB: nat := if remaining > 1 then bytes[i + 1] else 0;
      var octetC: nat := if remaining > 2 then bytes[i + 2] else 0;
      var triple := octetA * 0x1_0000 + octetB * 0x100 + octetC;
      var group := [Symbol(triple / 0x4_0000 % 64),
                    Symbol(triple / 0x1000 % 64),
                    if remaining > 1 then Symbol(triple / 64 % 64) else '=',
                    if remaining > 2 then Symbol(triple % 64) else '='];
      ghost var rest := bytes[i..];
      GroupOfTriple(rest[..if remaining > 3 then 3 else remaining], octetA, octetB, octetC);
      if remaining > 3 {
        assert rest[3..] == bytes[i + 3..];
      } else {
        assert rest[..remaining] == rest;
      }
      encoded := encoded + group;
      i := i + 3;
    }
  }

  lemma GroupOfTriple(bytes: seq<Byte>, a: Byte, b: Byte, c: Byte)
    requires 1 <= |bytes| <= 3 && a == bytes[0]
    requires b == (if |bytes| > 1 then bytes[1] else 0) && c == (if |bytes| > 2 then bytes[2] else 0)
    ensures var triple := a * 0x1_0000 + b * 0x100 + c;
            EncodeGroup(bytes) == [Symbol(triple / 0x4_0000 % 64),
                                   Symbol(triple / 0x1000 % 64),
                                   if |bytes| > 1 then Symbol(triple / 64 % 64) else '=',
                                   if |bytes| > 2 then Symbol(triple % 64) else '=']
  {
    hide Symbol, Sextet1, Sextet2, Sextet3, Sextet4;
    TripleSextets(a, b, c);
  }

  lemma TripleSextets(a: Byte, b: Byte, c: Byte)
    ensures var triple := a * 0x1_0000 + b * 0x100 + c;
            && triple / 0x4_0000 % 64 == Sextet1(a)
            && triple / 0x1000 % 64 == Sextet2(a, b)
            && triple / 64 % 64 == Sextet3(b, c)
            && triple % 64 == Sextet4(c)
  {
    var triple := a * 0x1_0000 + b * 0x100 + c;
    var s1, s2, s3 := a % 4 * 16 + b / 16, b % 16 * 4 + c / 64, c % 64;
    Mod64(triple, (a / 4) * 0x1000 + s1 * 64 + s2, s3);
    Mod64(triple / 64, (a / 4) * 64 + s1, s2);
    Mod64(triple / 64 / 64, a / 4, s1);
    Div4096(triple, (a / 4) * 64 + s1, s2 * 64 + s3);
    Div262144(triple, a / 4, s1 * 0x1000 + s2 * 64 + s3);
  }

  lemma Div4096(x: int, q: int, r: int)
    requires x == 0x1000 * q + r && 0 <= r < 0x1000
    ensures x / 0x1000 == q
  {
  }

  lemma Div262144(x: int, q: int, r: int)
    requires x == 0x4_0000 * q + r && 0 <= r < 0x4_0000
    ensures x / 0x4_0000 == q
  {
  }

  /** The sextets of a byte sequence, the last one filled with zero bits. */
  function Pack(bytes: seq<Byte>): (v: seq<Sextet>)
  {
    var n := |bytes|;
    if n == 0 then [] else
    if n == 1 then [Sextet1(bytes[0]), Sextet2(bytes[0], 0)] else
    if n == 2 then [Sextet1(bytes[0]), Sextet2(bytes[0], bytes[1]), Sextet3(bytes[1], 0)] else
    [Sextet1(bytes[0]), Sextet2(bytes[0], bytes[1]), Sextet3(bytes[1], bytes[2]), Sextet4(bytes[2])] + Pack(bytes[3..])
  }

  lemma SextetsNext(text: string, c: char)
    ensures Sextets(text + [c]) == if Sextets(text).None? || SymbolValue(c) < 0 then None
                                   else Some(Sextets(text).value + [SymbolValue(c)])
  {
    assert (text + [c])[..|text|] == text;
  }

  lemma {:induction false} SextetsAppend(s: string, t: string)
    requires Sextets(s).Some?
    ensures Sextets(s + t) == if Sextets(t).None? then None else Some(Sextets(s).value + Sextets(t).value)
    decreases |t|
  {
    hide Sextets, SymbolValue;
    NothingAtStart();
    if t == "" {
      assert s + t == s && Sextets(s).value + [] == Sextets(s).value;
    } else {
      var front, last := t[..|t| - 1], t[|t| - 1];
      SextetsAppend(s, front);
      SextetsNext(s + front, last);
      SextetsNext(front, last);
      assert s + t == (s + front) + [last] && t == front + [last];
      if Sextets(t).Some? {
        Regrouped(Sextets(s).value, Sextets(front).value, [SymbolValue(last)]);
      }
    }
  }

  lemma Regrouped(a: seq<Sextet>, b: seq<Sextet>, c: seq<Sextet>)
    ensures (a + b) + c == a + (b + c)
  {
  }

  /** After a multiple of four sextets unpacking starts afresh. */
  lemma {:induction false} UnpackAppend(u: seq<Sextet>, w: seq<Sextet>)
    requires |u| % 4 == 0
    ensures Unpack(u + w) == Unpack(u) + Unpack(w)
    decreases |w|
  {
    hide CompletedByte, Unpack;
    NothingAtStart();
    if w == [] {
      assert u + w == u && Unpack(u) + [] == Unpack(u);
    } else {
      var front, last := w[..|w| - 1], w[|w| - 1];
      UnpackAppend(u, front);
      assert u + w == (u + front) + [last] && w == front + [last];
      UnpackNext(u + front, last);
      UnpackNext(front, last);
      SameCycle(|u|, |w|);
      if |w| % 4 != 1 {
        assert (u + front)[|u + front| - 1] == front[|front| - 1];
        SameByte(front[|front| - 1], last, |u| + |w|, |w|);
        Joined(Unpack(u), Unpack(front), [CompletedByte(front[|front| - 1], last, |w|)]);
      }
    }
  }

  lemma Joined(a: seq<Byte>, b: seq<Byte>, c: seq<Byte>)
    ensures (a + b) + c == a + (b + c)
  {
  }

  lemma SameCycle(m: nat, n: nat)
    requires m % 4 == 0
    ensures (m + n) % 4 == n % 4
  {
  }

  lemma SameByte(before: Sextet, last: Sextet, j: nat, k: nat)
    requires j % 4 == k % 4 && k % 4 != 1
    ensures CompletedByte(before, last, j) == CompletedByte(before, last, k)
  {
  }

  lemma SymbolsOfGroup(a: Sextet, b: Sextet, c: Sextet, d: Sextet)
    ensures Sextets([Symbol(a), Symbol(b)]) == Some([a, b])
    ensures Sextets([Symbol(a), Symbol(b), Symbol(c)]) == Some([a, b, c])
    ensures Sextets([Symbol(a), Symbol(b), Symbol(c), Symbol(d)]) == Some([a, b, c, d])
  {
    hide Symbol, SymbolValue, Sextets;
    NothingAtStart();
    SymbolInverse(a);
    SymbolInverse(b);
    SymbolInverse(c);
    SymbolInverse(d);
    var s1, s2, s3, s4 := Symbol(a), Symbol(b), Symbol(c), Symbol(d);
    SextetsNext("", s1);
    SextetsNext([s1], s2);
    SextetsNext([s1, s2], s3);
    SextetsNext([s1, s2, s3], s4);
    assert "" + [s1] == [s1] && [s1] + [s2] == [s1, s2];
    assert [s1, s2] + [s3] == [s1, s2, s3] && [s1, s2, s3] + [s4] == [s1, s2, s3, s4];
    assert [] + [a] == [a] && [a] + [b] == [a, b];
    assert [a, b] + [c] == [a, b, c] && [a, b, c] + [d] == [a, b, c, d];
  }

  lemma UnpackOfGroup(a: Sextet, b: Sextet, c: Sextet, d: Sextet)
    ensures Unpack([a, b]) == [CompletedByte(a, b, 2)]
    ensures Unpack([a, b, c]) == [CompletedByte(a, b, 2), CompletedByte(b, c, 3)]
    ensures Unpack([a, b, c, d]) == [CompletedByte(a, b, 2), CompletedByte(b, c, 3), CompletedByte(c, d, 4)]
  {
    hide Unpack, CompletedByte;
    NothingAtStart();
    UnpackNext([], a);
    UnpackNext([a], b);
    UnpackNext([a, b], c);
    UnpackNext([a, b, c], d);
    assert [] + [a] == [a] && [a] + [b] == [a, b];
    assert [a, b] + [c] == [a, b, c] && [a, b, c] + [d] == [a, b, c, d];
  }

  /** One group of symbols without its pads decodes to the packed group, which unpacks to the bytes. */
  lemma GroupDecodes(bytes: seq<Byte>)
    requires 1 <= |bytes| <= 3
    ensures Sextets(EncodeGroup(bytes)[..|bytes| + 1]) == Some(Pack(bytes))
    ensures Unpack(Pack(bytes)) == bytes && |Pack(bytes)| == |bytes| + 1
  {
    hide Sextets, Unpack, Symbol, EncodeGroup, Pack, Sextet1, Sextet2, Sextet3, Sextet4, CompletedByte;
    var a, b, c := bytes[0], if |bytes| > 1 then bytes[1] else 0, if |bytes| > 2 then bytes[2] else 0;
    GroupParts(bytes, a, b, c);
    GroupOfSextets(|bytes|, Sextet1(a), Sextet2(a, b), Sextet3(b, c), Sextet4(c));
    Regained(a, b, c);
  }

  /** The first n of three bytes. */
  function FirstBytes(n: nat, a: Byte, b: Byte, c: Byte): seq<Byte> {
    if n == 1 then [a] else if n == 2 then [a, b] else [a, b, c]
  }

  function FirstSextets(n: nat, a: Sextet, b: Sextet, c: Sextet, d: Sextet): seq<Sextet> {
    if n == 1 then [a, b] else if n == 2 then [a, b, c] else [a, b, c, d]
  }

  function FirstSymbols(n: nat, a: Sextet, b: Sextet, c: Sextet, d: Sextet): string {
    if n == 1 then [Symbol(a), Symbol(b)]
    else if n == 2 then [Symbol(a), Symbol(b), Symbol(c)]
    else [Symbol(a), Symbol(b), Symbol(c), Symbol(d)]
  }

  lemma GroupOfSextets(n: nat, a: Sextet, b: Sextet, c: Sextet, d: Sextet)
    ensures Sextets(FirstSymbols(n, a, b, c, d)) == Some(FirstSextets(n, a, b, c, d))
    ensures Unpack(FirstSextets(n, a, b, c, d))
         == FirstBytes(n, CompletedByte(a, b, 2), CompletedByte(b, c, 3), CompletedByte(c, d, 4))
  {
    hide Sextets, Unpack, Symbol, CompletedByte;
    SymbolsOfGroup(a, b, c, d);
    UnpackOfGroup(a, b, c, d);
  }

  /** The bits of three bytes, cut into sextets and put together again. */
  lemma Regained(a: Byte, b: Byte, c: Byte)
    ensures CompletedByte(Sextet1(a), Sextet2(a, b), 2) == a
    ensures CompletedByte(Sextet2(a, b), Sextet3(b, c), 3) == b
    ensures CompletedByte(Sextet3(b, c), Sextet4(c), 4) == c
  {
    Div16(a % 4 * 16 + b / 16, a % 4, b / 16);
    Div4(b % 16 * 4 + c / 64, b % 16, c / 64);
  }

  lemma GroupParts(bytes: seq<Byte>, a: Byte, b: Byte, c: Byte)
    requires 1 <= |bytes| <= 3 && a == bytes[0]
    requires b == (if |bytes| > 1 then bytes[1] else 0) && c == (if |bytes| > 2 then bytes[2] else 0)
    ensures Pack(bytes) == FirstSextets(|bytes|, Sextet1(a), Sextet2(a, b), Sextet3(b, c), Sextet4(c))
    ensures EncodeGroup(bytes)[..|bytes| + 1]
         == FirstSymbols(|bytes|, Sextet1(a), Sextet2(a, b), Sextet3(b, c), Sextet4(c))
    ensures bytes == FirstBytes(|bytes|, a, b, c)
  {
    hide Symbol, Sextet1, Sextet2, Sextet3, Sextet4;
    if |bytes| == 3 {
      assert bytes[3..] == [];
    }
  }

  lemma GroupPads(bytes: seq<Byte>)
    requires 1 <= |bytes| <= 3
    ensures Pads(EncodeGroup(bytes)) == 3 - |bytes|
  {
    hide Symbol;
    var text := EncodeGroup(bytes);
    hide Sextet1, Sextet2, Sextet3, Sextet4;
    var a, b, c := bytes[0], if |bytes| > 1 then bytes[1] else 0, if |bytes| > 2 then bytes[2] else 0;
    SymbolInverse(Sextet2(a, b));
    SymbolInverse(Sextet3(b, c));
    SymbolInverse(Sextet4(c));
    assert text[..3][..2][|text[..3][..2]| - 1] == text[1];
    assert Pads(text[..3][..2]) == 0;
    assert text[..3][2] == text[2];
  }

  lemma {:induction false} PadsAppend(s: string, t: string)
    requires exists i :: 0 <= i < |t| && t[i] != '='
    ensures Pads(s + t) == Pads(t)
    decreases |t|
  {
    var all := s + t;
    if t[|t| - 1] == '=' {
      assert all[..|all| - 1] == s + t[..|t| - 1];
      var i :| 0 <= i < |t| && t[i] != '=';
      assert t[..|t| - 1][i] != '=';
      PadsAppend(s, t[..|t| - 1]);
    }
  }

  /** What an encoding consists of: whole groups, the pads of the last, and the packed sextets before them. */
  lemma {:induction false} EncodeShape(bytes: seq<Byte>)
    requires bytes != []
    ensures var text := EncodeText(bytes);
            && |text| >= 4 && |text| % 4 == 0 && Pads(text) <= 2
            && (exists i :: 0 <= i < |text| && text[i] != '=')
            && Sextets(text[..|text| - Pads(text)]) == Some(Pack(bytes))
            && Unpack(Pack(bytes)) == bytes
    decreases |bytes|
  {
    hide Sextets, Unpack, Pack, EncodeGroup, Pads;
    if |bytes| <= 3 {
      GroupDecodes(bytes);
      GroupPads(bytes);
      FirstSymbol(bytes);
    } else {
      var head, tail := bytes[..3], bytes[3..];
      GroupDecodes(head);
      EncodeShape(tail);
      EncodeStep(head, tail, EncodeText(tail));
      PackStep(bytes);
    }
  }

  lemma FirstSymbol(bytes: seq<Byte>)
    requires 1 <= |bytes| <= 3
    ensures EncodeGroup(bytes)[0] != '='
  {
    hide Symbol;
    SymbolInverse(Sextet1(bytes[0]));
  }

  lemma PackSplits(bytes: seq<Byte>)
    requires |bytes| > 3
    ensures Pack(bytes) == Pack(bytes[..3]) + Pack(bytes[3..])
  {
    hide Sextet1, Sextet2, Sextet3, Sextet4;
    GroupParts(bytes[..3], bytes[0], bytes[1], bytes[2]);
  }

  lemma PackStep(bytes: seq<Byte>)
    requires |bytes| > 3 && Unpack(Pack(bytes[..3])) == bytes[..3] && Unpack(Pack(bytes[3..])) == bytes[3..]
    requires |Pack(bytes[..3])| == 4
    ensures Pack(bytes) == Pack(bytes[..3]) + Pack(bytes[3..])
    ensures Unpack(Pack(bytes)) == bytes
  {
    hide Unpack, Pack;
    PackSplits(bytes);
    UnpackAppend(Pack(bytes[..3]), Pack(bytes[3..]));
    assert bytes == bytes[..3] + bytes[3..];
  }

  lemma EncodeStep(head: seq<Byte>, tail: seq<Byte>, text: string)
    requires |head| == 3 && Sextets(EncodeGroup(head)[..4]) == Some(Pack(head))
    requires |text| >= 4 && |text| % 4 == 0 && Pads(text) <= 2
    requires exists i :: 0 <= i < |text| && text[i] != '='
    requires Sextets(text[..|text| - Pads(text)]) == Some(Pack(tail))
    ensures var all := EncodeGroup(head) + text;
            && |all| % 4 == 0 && Pads(all) == Pads(text)
            && (exists i :: 0 <= i < |all| && all[i] != '=')
            && Sextets(all[..|all| - Pads(all)]) == Some(Pack(head) + Pack(tail))
  {
    hide Sextets, Pack, EncodeGroup, Pads;
    var group := EncodeGroup(head);
    var all := group + text;
    PadsAppend(group, text);
    var i :| 0 <= i < |text| && text[i] != '=';
    assert all[4 + i] == text[i];
    assert group[..4] == group;
    SextetsAppend(group, text[..|text| - Pads(text)]);
    assert all[..|all| - Pads(all)] == group + text[..|text| - Pads(text)];
  }

  /** The symbols are A to Z, a to z, 0 to 9, plus and slash, in this order (table 1 of RFC 4648). */
  lemma SymbolsInOrder(v: Sextet)
    ensures Symbol(0) == 'A' && Symbol(25) == 'Z' && Symbol(26) == 'a' && Symbol(51) == 'z'
    ensures Symbol(52) == '0' && Symbol(61) == '9' && Symbol(62) == '+' && Symbol(63) == '/'
    ensures v < 25 || 26 <= v < 51 || 52 <= v < 61 ==> Symbol(v + 1) as int == Symbol(v) as int + 1
  {
  }

  /** Three bytes and the four symbols they are written as spell the same 24 bits, the first ones first. */
  lemma GroupSpellsBits(a: Byte, b: Byte, c: Byte)
    ensures var text := EncodeGroup([a, b, c]);
            && (forall i :: 0 <= i < 4 ==> 0 <= SymbolValue(text[i]))
            && a * 65536 + b * 256 + c
            == SymbolValue(text[0]) * 262144 + SymbolValue(text[1]) * 4096 + SymbolValue(text[2]) * 64 + SymbolValue(text[3])
  {
    SymbolInverse(Sextet1(a));
    SymbolInverse(Sextet2(a, b));
    SymbolInverse(Sextet3(b, c));
    SymbolInverse(Sextet4(c));
  }

  /** One and two bytes are written like three, with a pad for each byte that is missing. */
  lemma ShortGroupIsPadded(a: Byte, b: Byte)
    ensures EncodeGroup([a]) == EncodeGroup([a, 0, 0])[..2] + "=="
    ensures EncodeGroup([a, b]) == EncodeGroup([a, b, 0])[..3] + "="
  {
    hide Symbol;
  }

  /** Decoding an encoding returns the bytes, except that the empty text is never accepted. */
  lemma RoundTrip(bytes: seq<Byte>)
    ensures DecodeText(EncodeText(bytes)) == Some(bytes) <==> bytes != []
  {
    hide Sextets, Unpack, Pack, Pads;
    if bytes != [] {
      EncodeShape(bytes);
    }
  }
}
