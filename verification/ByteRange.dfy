/** Range headers: one byte range of a file (section 14.1.2 of RFC 9110). */
module ByteRange {
  import opened Options
  import opened Text
  import opened Decimal

  datatype Range = Range(start: nat, end: nat)

  const UNIT := "bytes="

  /** parseRangeHeader, with None for a header the server answers with 416. */
  function ParseRange(header: string, fileSize: nat): Option<Range> {
    if |header| < |UNIT| || header[..|UNIT|] != UNIT then None else
    var spec := header[|UNIT|..];
    if spec == "" || IndexOf(spec, ',', 0).Some? then None else
    var dash := IndexOf(spec, '-', 0);
    if dash.None? || IndexOf(spec, '-', dash.value + 1).Some? then None else
    ResolveRange(spec[..dash.value], spec[dash.value + 1..], fileSize)
  }

  /** The part of parseRangeHeader after the two numbers have been cut out. */
  function ResolveRange(first: string, last: string, fileSize: nat): Option<Range> {
    if first == "" && last == "" then None else
    if fileSize == 0 then None else
    if first == "" then
      var suffixLength := ParseWord(last);
      if suffixLength.None? || suffixLength.value == 0 then None
      else Some(Range(if suffixLength.value >= fileSize then 0 else fileSize - suffixLength.value, fileSize - 1))
    else
      var start := ParseWord(first);
      if start.None? then None else
      var end := if last == "" then Some(fileSize - 1) else ParseWord(last);
      if end.None? then None else
      if start.value >= fileSize || start.value > end.value then None else
      Some(Range(start.value, if end.value < fileSize - 1 then end.value else fileSize - 1))
  }

  /** Digits whose value fits the word, or nothing. */
  ghost predicate IsNumberOrEmpty(s: string) {
    AllDigits(s) && Value(s) <= WORD_MAX
  }

  /** A header with exactly one range: `first-last`, `first-` or `-suffix`. */
  ghost predicate IsSingleRange(header: string, first: string, last: string) {
    && header == UNIT + first + "-" + last
    && IsNumberOrEmpty(first) && IsNumberOrEmpty(last)
    && (first != "" || last != "")
  }

  /** The file positions a range asks for: from first to last, from first on, or the last n bytes. */
  ghost predicate Selects(first: string, last: string, fileSize: nat, position: nat)
    requires AllDigits(first) && AllDigits(last)
  {
    && position < fileSize
    && if first == "" then position + Value(last) >= fileSize
       else Value(first) <= position && (last == "" || position <= Value(last))
  }

  /** The cut-out numbers resolve iff they are numbers in the word that select some byte. */
  lemma ResolveExact(first: string, last: string, fileSize: nat)
    requires first != "" || last != ""
    ensures ResolveRange(first, last, fileSize).Some?
       <==> IsNumberOrEmpty(first) && IsNumberOrEmpty(last) && exists p :: Selects(first, last, fileSize, p)
    ensures ResolveRange(first, last, fileSize).Some? ==>
              var r := ResolveRange(first, last, fileSize).value;
              && r.start <= r.end < fileSize
              && forall p: nat :: r.start <= p <= r.end <==> Selects(first, last, fileSize, p)
  {
    hide Value;
    EmptyIsZero();
    var r := ResolveRange(first, last, fileSize);
    if r.Some? {
      assert Selects(first, last, fileSize, r.value.start);
    } else if IsNumberOrEmpty(first) && IsNumberOrEmpty(last) {
      forall p: nat ensures !Selects(first, last, fileSize, p) {
      }
    }
  }

  lemma EmptyIsZero()
    ensures AllDigits("") && Value("") == 0
  {
  }

  lemma DigitsHaveNo(s: string, c: char)
    requires AllDigits(s) && !IsDigit(c)
    ensures forall i :: 0 <= i < |s| ==> s[i] != c
  {
  }

  /** Two numbers joined by a dash are cut at that dash, which is the only one. */
  lemma CutRange(first: string, last: string)
    requires AllDigits(first) && AllDigits(last)
    ensures var spec := first + "-" + last;
            && IndexOf(spec, ',', 0).None?
            && IndexOf(spec, '-', 0) == Some(|first|)
            && IndexOf(spec, '-', |first| + 1).None?
            && spec[..|first|] == first && spec[|first| + 1..] == last
  {
    hide IndexOf, AllDigits;
    DigitsHaveNo(first, '-');
    DigitsHaveNo(first, ',');
    DigitsHaveNo(last, '-');
    DigitsHaveNo(last, ',');
    var spec := first + "-" + last;
    forall i: nat | i < |first| ensures spec[i] != '-' && spec[i] != ',' {
      assert spec[i] == first[i];
    }
    forall i: nat | |first| < i < |spec| ensures spec[i] != '-' && spec[i] != ',' {
      assert spec[i] == last[i - |first| - 1];
    }
    assert spec[|first|] == '-';
    IndexOfUnique(spec, '-', 0, |first|);
    IndexOfAbsent(spec, '-', |first| + 1);
    IndexOfAbsent(spec, ',', 0);
  }

  lemma UnitOf(spec: string)
    ensures |UNIT + spec| >= |UNIT| && (UNIT + spec)[..|UNIT|] == UNIT && (UNIT + spec)[|UNIT|..] == spec
  {
  }

  /** The parser on a single-range header is the resolution of its two numbers. */
  lemma SingleRangeParsed(header: string, first: string, last: string, fileSize: nat)
    requires IsSingleRange(header, first, last)
    ensures ParseRange(header, fileSize) == ResolveRange(first, last, fileSize)
  {
    hide IndexOf, ResolveRange, Value;
    var spec := first + "-" + last;
    assert UNIT + first + "-" + last == UNIT + spec;
    UnitOf(spec);
    CutRange(first, last);
  }

  /** Whatever the parser accepts is a single-range header. */
  lemma ParsedIsSingleRange(header: string, fileSize: nat) returns (first: string, last: string)
    requires ParseRange(header, fileSize).Some?
    ensures IsSingleRange(header, first, last)
    ensures ResolveRange(first, last, fileSize) == ParseRange(header, fileSize)
  {
    hide IndexOf, ResolveRange, Value;
    var spec := header[|UNIT|..];
    var dash := IndexOf(spec, '-', 0).value;
    first, last := spec[..dash], spec[dash + 1..];
    NotBothEmpty(first, last, fileSize);
    ResolveExact(first, last, fileSize);
    assert spec == first + "-" + last;
    assert header == UNIT + spec;
    assert UNIT + spec == UNIT + first + "-" + last;
  }

  lemma NotBothEmpty(first: string, last: string, fileSize: nat)
    requires ResolveRange(first, last, fileSize).Some?
    ensures first != "" || last != ""
  {
  }

  /**
   * A Range header is honoured iff it is one well-formed range whose numbers fit the
   * word and which selects some byte; the slice served is exactly the bytes selected.
   */
  lemma RangeExact(header: string, fileSize: nat)
    ensures ParseRange(header, fileSize).Some?
       <==> exists first, last :: IsSingleRange(header, first, last) && exists p :: Selects(first, last, fileSize, p)
    ensures forall first, last :: IsSingleRange(header, first, last) && ParseRange(header, fileSize).Some? ==>
              var r := ParseRange(header, fileSize).value;
              && r.start <= r.end < fileSize
              && forall p: nat :: r.start <= p <= r.end <==> Selects(first, last, fileSize, p)
  {
    hide ParseRange, ResolveRange, Value, AllDigits;
    if ParseRange(header, fileSize).Some? {
      var first, last := ParsedIsSingleRange(header, fileSize);
      ResolveExact(first, last, fileSize);
    }
    forall first, last | IsSingleRange(header, first, last)
      ensures ParseRange(header, fileSize) == ResolveRange(first, last, fileSize)
    {
      SingleRangeParsed(header, first, last, fileSize);
    }
    forall first, last | IsSingleRange(header, first, last)
      ensures ResolveRange(first, last, fileSize).Some? <==> exists p :: Selects(first, last, fileSize, p)
      ensures ResolveRange(first, last, fileSize).Some? ==>
                var r := ResolveRange(first, last, fileSize).value;
                && r.start <= r.end < fileSize
                && forall p: nat :: r.start <= p <= r.end <==> Selects(first, last, fileSize, p)
    {
      ResolveExact(first, last, fileSize);
    }
  }
}
