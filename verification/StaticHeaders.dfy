/** What a client reads in the head of a static answer: type, tag, coding and range. */
module StaticHeaders {
  import opened Text
  import opened Decimal
  import opened HttpParser
  import opened HttpGrammar
  import opened HttpRoundTrip
  import opened HttpResponses
  import opened StaticFiles

  /** `bytes first-last/size`, in decimal (section 14.4 of RFC 9110). */
  ghost predicate IsContentRange(value: string, first: nat, last: nat, size: nat) {
    exists a, b, c ::
      && value == "bytes " + a + "-" + b + "/" + c
      && IsNumeral(a, first) && IsNumeral(b, last) && IsNumeral(c, size)
  }

  predicate IsNumeral(s: string, n: nat) { s != "" && AllDigits(s) && Value(s) == n }

  /** `bytes *` and the size, of a range that cannot be satisfied. */
  ghost predicate IsUnsatisfiedRange(value: string, size: nat) {
    exists c :: value == "bytes */" + c && IsNumeral(c, size)
  }

  function OrNothing(value: string): seq<string> { if value == "" then [] else [Trim(value)] }

  lemma RangeNames()
    ensures ToLower("ETag") == "etag" && ToLower("Content-Range") == "content-range"
    ensures ToLower("Content-Encoding") == "content-encoding" && ToLower("Vary") == "vary"
  {
    hide ToLower;
    LowerIs("ETag", "etag");
    LowerIs("Content-Range", "content-range");
    LowerIs("Content-Encoding", "content-encoding");
    LowerIs("Vary", "vary");
  }

  lemma NamesDiffer()
    ensures |"etag"| == 4 && |"content-range"| == 13 && |"content-encoding"| == 16 && |"vary"| == 4
    ensures "etag" != "vary" && |"content-type"| == 12 && |"content-length"| == 14 && |"connection"| == 10
  {
    assert "etag"[0] == 'e' && "vary"[0] == 'v';
  }

  lemma RangeIsPrinted(file: FileResult)
    requires file.contentLength > 0
    ensures IsContentRange(ContentRange(file), file.contentOffset, file.contentOffset + file.contentLength - 1, file.fileSize)
    ensures Trim(ContentRange(file)) == ContentRange(file)
  {
    hide Print, Trim;
    var a, b, c := Print(file.contentOffset), Print(file.contentOffset + file.contentLength - 1), Print(file.fileSize);
    assert ContentRange(file) == "bytes " + a + "-" + b + "/" + c;
    assert IsNumeral(a, file.contentOffset) && IsNumeral(b, file.contentOffset + file.contentLength - 1) && IsNumeral(c, file.fileSize);
    EndsInDigit("bytes " + a + "-" + b + "/", c);
    TrimCore(ContentRange(file));
  }

  lemma EndsInDigit(start: string, digits: string)
    requires start != "" && !IsBlank(start[0]) && digits != "" && AllDigits(digits)
    ensures IsCore(start + digits)
  {
    var all := start + digits;
    assert all[|all| - 1] == digits[|digits| - 1] && IsDigit(digits[|digits| - 1]);
  }

  /** What a 200 or 206 is to say under a name, besides the three standard headers. */
  function FurtherOf(file: FileResult, name: string): seq<string> {
    if name == "etag" then (if file.etag == "" then [] else [file.etag])
    else if name == "content-encoding" then (if file.gzipEncoded then ["gzip"] else [])
    else if name == "vary" then (if file.gzipEncoded then ["Accept-Encoding"] else [])
    else if name == "content-range" then (if file.partialContent then [ContentRange(file)] else [])
    else []
  }

  lemma FoundValues(file: FileResult, keepAlive: bool, name: string)
    ensures FieldValues(FoundHead(file, keepAlive).headers, name) == FurtherOf(file, name)
  {
    hide ToLower, SetHeader, FieldValues, ContentRange;
    RangeNames();
    NamesDiffer();
    var h1 := if file.etag == "" then [] else SetHeader([], "ETag", file.etag);
    var h2 := if file.gzipEncoded
              then SetHeader(SetHeader(h1, "Content-Encoding", "gzip"), "Vary", "Accept-Encoding") else h1;
    TagValues(file.etag, name);
    TagValues(file.etag, "content-encoding");
    TagValues(file.etag, "vary");
    TagValues(file.etag, "content-range");
    CodedValues(h1, name);
    CodedValues(h1, "content-range");
    SetHeaderGives(h2, "Content-Range", ContentRange(file), name);
  }

  lemma TagValues(etag: string, name: string)
    ensures FieldValues(if etag == "" then [] else SetHeader([], "ETag", etag), name)
         == if name == "etag" && etag != "" then [etag] else []
  {
    hide ToLower, SetHeader;
    RangeNames();
    assert FieldValues([], name) == [] && FieldValues([], "etag") == [];
    SetHeaderGives([], "ETag", etag, name);
  }

  lemma CodedValues(h1: seq<Field>, name: string)
    requires FieldValues(h1, "content-encoding") == [] && FieldValues(h1, "vary") == []
    ensures FieldValues(SetHeader(SetHeader(h1, "Content-Encoding", "gzip"), "Vary", "Accept-Encoding"), name)
         == if name == "content-encoding" then ["gzip"] else if name == "vary" then ["Accept-Encoding"] else FieldValues(h1, name)
  {
    hide ToLower, SetHeader, FieldValues;
    RangeNames();
    NamesDiffer();
    SetHeaderGives(h1, "Content-Encoding", "gzip", "vary");
    SetHeaderGives(h1, "Content-Encoding", "gzip", name);
    SetHeaderGives(SetHeader(h1, "Content-Encoding", "gzip"), "Vary", "Accept-Encoding", name);
  }

  lemma TrimmedOne(value: string)
    ensures Trimmed([value]) == [Trim(value)] && Trimmed([]) == []
  {
    TrimmedCons(value, []);
    assert [value] + [] == [value] && [Trim(value)] + [] == [Trim(value)];
  }

  /** A header that is not one of the three standard ones reads as its only value, or not at all. */
  lemma OneIsRead(r: Response, includeBody: bool, name: string, values: seq<string>)
    requires OnOwnLines(r) && FieldValues(r.headers, name) == values && |values| <= 1
    requires name != "content-type" && name != "content-length" && name != "connection"
    ensures var text := ToText(r, includeBody);
            && text != "" && AllFieldLines(FieldLines(text, LineNext(text, 0)))
            && HeaderValues(text, name) == if values == [] then [] else [Trim(values[0])]
  {
    hide ToText, FieldLines, ValuesOf, IsFieldLine, LineNext, Trimmed, FieldValues, OnOwnLines, AllFieldLines, Trim;
    HeadersAreRead(r, includeBody, name);
    HeadValues(r, name);
    assert [] + values == values;
    if values != [] {
      assert values == [values[0]];
      TrimmedOne(values[0]);
    } else {
      TrimmedOne("");
    }
  }

  lemma TypeIsRead(r: Response, includeBody: bool)
    requires OnOwnLines(r) && FieldValues(r.headers, "content-type") == []
    ensures var text := ToText(r, includeBody);
            && text != "" && AllFieldLines(FieldLines(text, LineNext(text, 0)))
            && HeaderValues(text, "content-type") == [Trim(r.contentType)]
  {
    hide ToText, FieldLines, ValuesOf, IsFieldLine, LineNext, Trimmed, FieldValues, OnOwnLines, AllFieldLines, Trim;
    HeadersAreRead(r, includeBody, "content-type");
    HeadValues(r, "content-type");
    assert [r.contentType] + [] == [r.contentType];
    TrimmedOne(r.contentType);
  }

  /** What the head of a 200 or 206 says of the file. */
  ghost predicate SaysFile(head: string, file: FileResult)
    requires head != "" && AllFieldLines(FieldLines(head, LineNext(head, 0)))
  {
    && HeaderValues(head, "content-type") == [Trim(file.contentType)]
    && HeaderValues(head, "etag") == OrNothing(file.etag)
    && HeaderValues(head, "content-encoding") == (if file.gzipEncoded then ["gzip"] else [])
    && HeaderValues(head, "vary") == (if file.gzipEncoded then ["Accept-Encoding"] else [])
    && var ranges := HeaderValues(head, "content-range");
       && |ranges| == (if file.partialContent then 1 else 0)
       && (file.partialContent && file.contentLength > 0 ==>
             IsContentRange(ranges[0], file.contentOffset, file.contentOffset + file.contentLength - 1, file.fileSize))
  }

  lemma PlainWords()
    ensures Trim("gzip") == "gzip" && Trim("Accept-Encoding") == "Accept-Encoding"
  {
    hide Trim;
    TrimCore("gzip");
    TrimCore("Accept-Encoding");
  }

  /** A found file is described truthfully by its head: type, tag, coding, and the range that follows. */
  lemma FoundIsDescribed(file: FileResult, keepAlive: bool, includeBody: bool)
    requires file.status == Found && OneLineFacts(file)
    ensures var head := StaticFileResponse(file, keepAlive, includeBody).response;
            && head != "" && AllFieldLines(FieldLines(head, LineNext(head, 0)))
            && SaysFile(head, file)
  {
    hide ToText, FieldLines, ValuesOf, IsFieldLine, LineNext, FieldValues, OnOwnLines, AllFieldLines, Trim, HeaderValues;
    hide FoundHead, ContentRange, IsContentRange;
    FoundHeadOnOwnLines(file, keepAlive);
    var head := FoundHead(file, keepAlive);
    SetBodyOnOwnLines(head, file.body);
    HeadersStay(file, keepAlive);
    if file.dynamicBody {
      DescribedBy(file, SetBody(head, file.body), includeBody);
    } else {
      DescribedBy(file, head, false);
    }
  }

  lemma HeadersStay(file: FileResult, keepAlive: bool)
    ensures forall name :: FieldValues(FoundHead(file, keepAlive).headers, name) == FurtherOf(file, name)
    ensures FoundHead(file, keepAlive).contentType == file.contentType
  {
    hide FieldValues, ContentRange, SetHeader;
    forall name ensures FieldValues(FoundHead(file, keepAlive).headers, name) == FurtherOf(file, name) {
      FoundValues(file, keepAlive, name);
    }
  }

  lemma DescribedBy(file: FileResult, r: Response, includeBody: bool)
    requires OnOwnLines(r) && r.contentType == file.contentType
    requires forall name :: FieldValues(r.headers, name) == FurtherOf(file, name)
    ensures var head := ToText(r, includeBody);
            && head != "" && AllFieldLines(FieldLines(head, LineNext(head, 0)))
            && SaysFile(head, file)
  {
    hide ToText, FieldLines, ValuesOf, IsFieldLine, LineNext, FieldValues, OnOwnLines, AllFieldLines, Trim, HeaderValues;
    hide ContentRange, IsContentRange;
    NamesDiffer();
    PlainWords();
    TypeIsRead(r, includeBody);
    OneIsRead(r, includeBody, "etag", FurtherOf(file, "etag"));
    OneIsRead(r, includeBody, "content-encoding", FurtherOf(file, "content-encoding"));
    OneIsRead(r, includeBody, "vary", FurtherOf(file, "vary"));
    OneIsRead(r, includeBody, "content-range", FurtherOf(file, "content-range"));
    if file.contentLength > 0 {
      RangeIsPrinted(file);
    }
  }

  /** A 304 carries the tag of the file, and no body or length of one. */
  lemma NotModifiedIsDescribed(file: FileResult, keepAlive: bool, includeBody: bool)
    requires file.status == NotModified && OneLineFacts(file)
    ensures var head := StaticFileResponse(file, keepAlive, includeBody).response;
            && head != "" && AllFieldLines(FieldLines(head, LineNext(head, 0)))
            && HeaderValues(head, "etag") == OrNothing(file.etag)
  {
    hide ToText, FieldLines, ValuesOf, IsFieldLine, LineNext, FieldValues, OnOwnLines, AllFieldLines, Trim, HeaderValues, SetHeader;
    NotModifiedOnOwnLines(file, keepAlive);
    var headers := if file.etag == "" then [] else SetHeader([], "ETag", file.etag);
    TagValues(file.etag, "etag");
    NamesDiffer();
    OneIsRead(NewResponse(304, "Not Modified").(contentType := file.contentType, keepAlive := keepAlive, headers := headers),
              false, "etag", if file.etag == "" then [] else [file.etag]);
  }

  /** A 416 says how long the file is. */
  lemma UnsatisfiableIsDescribed(file: FileResult, keepAlive: bool, includeBody: bool)
    requires file.status == RangeNotSatisfiable
    ensures var head := StaticFileResponse(file, keepAlive, includeBody).response;
            && head != "" && AllFieldLines(FieldLines(head, LineNext(head, 0)))
            && |HeaderValues(head, "content-range")| == 1
            && IsUnsatisfiedRange(HeaderValues(head, "content-range")[0], file.fileSize)
  {
    hide ToText, FieldLines, ValuesOf, IsFieldLine, LineNext, FieldValues, OnOwnLines, AllFieldLines, Trim, HeaderValues, SetHeader;
    hide Print;
    UnsatisfiableOnOwnLines(file, keepAlive);
    var value := "bytes */" + Print(file.fileSize);
    EndsInDigit("bytes */", Print(file.fileSize));
    TrimCore(value);
    assert IsNumeral(Print(file.fileSize), file.fileSize);
    RangeNames();
    NamesDiffer();
    SetHeaderOnNothing("Content-Range", value, "content-range");
    OneIsRead(SetBody(NewResponse(416, "Range Not Satisfiable"), file.body).(
                keepAlive := keepAlive, headers := SetHeader([], "Content-Range", value)), includeBody, "content-range", [value]);
  }

  lemma SetHeaderOnNothing(name: string, value: string, lower: string)
    requires ToLower(name) == lower
    ensures FieldValues(SetHeader([], name, value), lower) == [value]
  {
    hide ToLower, SetHeader;
    assert FieldValues([], lower) == [];
    SetHeaderGives([], name, value, lower);
  }
}
