/** Entity tags of files and the If-None-Match test (section 13.1.2 of RFC 9110). */
module Etag {
  import opened Options
  import opened Text
  import opened Lists
  import opened Hexadecimal

  const WORD: nat := 0x1_0000_0000_0000_0000

  /** fnv1a64, with the multiplication that wraps in 64 bits. */
  function Fnv1a64(value: string): bv64 {
    if value == "" then 14695981039346656037
    else (Fnv1a64(value[..|value| - 1]) ^ (value[|value| - 1] as int % 256) as bv64) * 1099511628211
  }

  /** A file time: ticks that fit a signed 64-bit word. */
  type Ticks = t: int | -0x8000_0000_0000_0000 <= t < 0x8000_0000_0000_0000

  /** The cast of signed ticks to an unsigned word. */
  function ToWord(t: Ticks): nat {
    if t >= 0 then t else t + WORD
  }

  function EtagText(pathHash: nat, fileSize: nat, modified: nat): string {
    "\"" + ToHex(pathHash) + "-" + ToHex(fileSize) + "-" + ToHex(modified) + "\""
  }

  function EtagForFile(path: string, fileSize: nat, lastModified: Ticks): string {
    EtagText(Fnv1a64(path) as nat, fileSize, ToWord(lastModified))
  }

  /** The element of an If-None-Match list that matches: a star, the tag, or its weak form. */
  predicate ElementMatches(element: string, etag: string) {
    element == "*" || element == etag || element == "W/" + etag
  }

  predicate SomeElementMatches(elements: seq<string>, etag: string) {
    exists i :: 0 <= i < |elements| && ElementMatches(elements[i], etag)
  }

  lemma SomeElementCons(head: string, rest: seq<string>, etag: string)
    ensures SomeElementMatches([head] + rest, etag) <==> ElementMatches(head, etag) || SomeElementMatches(rest, etag)
  {
    var all := [head] + rest;
    assert all[0] == head;
    if i :| 0 <= i < |rest| && ElementMatches(rest[i], etag) {
      assert all[i + 1] == rest[i];
    }
    if i :| 0 <= i < |all| && ElementMatches(all[i], etag) {
      assert i == 0 || all[i] == rest[i - 1];
    }
  }

  lemma SomeElementOne(head: string, etag: string)
    ensures SomeElementMatches([head], etag) <==> ElementMatches(head, etag)
  {
    assert [head][0] == head;
  }

  lemma WeakForm(token: string, etag: string)
    ensures |token| >= 2 && token[..2] == "W/" && token[2..] == etag <==> token == "W/" + etag
  {
    if |token| >= 2 {
      assert token == token[..2] + token[2..];
    }
    assert ("W/" + etag)[..2] == "W/" && ("W/" + etag)[2..] == etag;
  }

  /** ifNoneMatchMatches: true iff some element of the comma-separated list matches. */
  method IfNoneMatchMatches(header: string, etag: string) returns (matches: bool)
    ensures matches <==> SomeElementMatches(Elements(header), etag)
  {
    hide Trim, IndexOf, SomeElementMatches;
    var tokenStart := 0;
    while tokenStart <= |header|
      invariant tokenStart <= |header|
      invariant SomeElementMatches(Elements(header), etag)
           <==> SomeElementMatches(ElementsFrom(header, tokenStart), etag)
      decreases |header| - tokenStart
    {
      var tokenEnd := IndexOf(header, ',', tokenStart);
      var token := Trim(if tokenEnd.None? then header[tokenStart..] else header[tokenStart..tokenEnd.value]);
      WeakForm(token, etag);
      SomeElementOne(token, etag);
      if tokenEnd.Some? {
        SomeElementCons(token, ElementsFrom(header, tokenEnd.value + 1), etag);
      }
      if token == "*" || token == etag {
        return true;
      }
      if |token| >= 2 && token[..2] == "W/" && token[2..] == etag {
        return true;
      }
      if tokenEnd.None? {
        return false;
      }
      tokenStart := tokenEnd.value + 1;
    }
    assert false;
    return false;
  }

  lemma DashCut(a: string, b: string)
    requires '-' !in a
    ensures IndexOf(a + "-" + b, '-', 0) == Some(|a|)
    ensures (a + "-" + b)[..|a|] == a && (a + "-" + b)[|a| + 1..] == b
  {
    var s := a + "-" + b;
    forall i: nat | i < |a| ensures s[i] != '-' {
      assert s[i] == a[i];
    }
    IndexOfUnique(s, '-', 0, |a|);
  }

  lemma HexHasNo(n: nat, c: char)
    requires !IsAlnum(c)
    ensures c !in ToHex(n)
  {
    hide ToHex, IsAlnum;
  }

  /** The three numbers can be read back from the text of a tag. */
  lemma EtagTextInjective(h1: nat, s1: nat, m1: nat, h2: nat, s2: nat, m2: nat)
    requires EtagText(h1, s1, m1) == EtagText(h2, s2, m2)
    ensures h1 == h2 && s1 == s2 && m1 == m2
  {
    hide ToHex, IndexOf, HexNumber;
    TagParts(h1, s1, m1);
    TagParts(h2, s2, m2);
  }

  /** Cutting the inside of a tag at its first dash, twice, and dropping the closing quote. */
  function Inside(tag: string): string
    requires |tag| >= 2
  {
    tag[1..|tag| - 1]
  }

  lemma TagParts(h: nat, s: nat, m: nat)
    ensures var tag := EtagText(h, s, m);
            && |tag| >= 2
            && (var inside := Inside(tag);
                var dash := IndexOf(inside, '-', 0);
                && dash.Some?
                && HexNumber(inside[..dash.value]) == h
                && (var rest := inside[dash.value + 1..];
                    var dash' := IndexOf(rest, '-', 0);
                    && dash'.Some?
                    && HexNumber(rest[..dash'.value]) == s
                    && HexNumber(rest[dash'.value + 1..]) == m))
  {
    hide ToHex, IndexOf, HexNumber;
    var tag := EtagText(h, s, m);
    var rest := ToHex(s) + "-" + ToHex(m);
    assert Inside(tag) == ToHex(h) + "-" + rest;
    HexHasNo(h, '-');
    HexHasNo(s, '-');
    DashCut(ToHex(h), rest);
    DashCut(ToHex(s), ToHex(m));
  }

  /** For one path, two tags are equal iff size and modification time are equal. */
  lemma EtagExact(path: string, s1: nat, t1: Ticks, s2: nat, t2: Ticks)
    ensures EtagForFile(path, s1, t1) == EtagForFile(path, s2, t2) <==> s1 == s2 && t1 == t2
  {
    hide EtagText, Fnv1a64;
    if EtagForFile(path, s1, t1) == EtagForFile(path, s2, t2) {
      EtagTextInjective(Fnv1a64(path) as nat, s1, ToWord(t1), Fnv1a64(path) as nat, s2, ToWord(t2));
    }
  }

  /** A tag is one list element, unchanged. */
  lemma EtagIsOneElement(h: nat, s: nat, m: nat)
    ensures Elements(EtagText(h, s, m)) == [EtagText(h, s, m)]
  {
    hide ToHex, IndexOf, Trim;
    var tag := EtagText(h, s, m);
    HexHasNo(h, ',');
    HexHasNo(s, ',');
    HexHasNo(m, ',');
    forall i | 0 <= i < |tag| ensures tag[i] != ',' {
    }
    IndexOfAbsent(tag, ',', 0);
    assert tag[0..] == tag;
    assert tag[0] == '"' && tag[|tag| - 1] == '"';
    TrimOf("", tag, "");
    assert "" + tag + "" == tag;
  }

  /** The tag in quotes: hash, size and time in base sixteen, with dashes between them. */
  lemma EtagSays(path: string, fileSize: nat, modified: Ticks) returns (h: string, s: string, m: string)
    ensures EtagForFile(path, fileSize, modified) == "\"" + h + "-" + s + "-" + m + "\""
    ensures HexNumber(s) == fileSize && HexNumber(m) == (if modified >= 0 then modified else 0x1_0000_0000_0000_0000 + modified)
  {
    hide ToHex, Fnv1a64;
    h, s, m := ToHex(Fnv1a64(path) as nat), ToHex(fileSize), ToHex(ToWord(modified));
  }

  /** A client that sends back a tag is told 304 iff size and time of that path are still the same. */
  lemma OldTagNeverMatches(path: string, s1: nat, t1: Ticks, s2: nat, t2: Ticks)
    ensures SomeElementMatches(Elements(EtagForFile(path, s1, t1)), EtagForFile(path, s2, t2))
       <==> s1 == s2 && t1 == t2
  {
    hide EtagText, Fnv1a64, ToWord;
    var sent, now := EtagForFile(path, s1, t1), EtagForFile(path, s2, t2);
    EtagIsOneElement(Fnv1a64(path) as nat, s1, ToWord(t1));
    SomeElementOne(sent, now);
    EtagExact(path, s1, t1, s2, t2);
    StartsWithQuote(Fnv1a64(path) as nat, s1, ToWord(t1));
    assert ("W/" + now)[0] == 'W';
  }

  lemma StartsWithQuote(h: nat, s: nat, m: nat)
    ensures EtagText(h, s, m)[0] == '"'
  {
  }
}
