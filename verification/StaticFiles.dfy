/** Answers for static files, from the cache or by sendfile, and the responses made of them. */
module StaticFiles {
  import opened Options
  import opened Decimal
  import opened ByteRange
  import opened HttpRoundTrip
  import opened HttpResponses

  datatype Status = Found | Forbidden | NotFound | BadRequest | NotModified | RangeNotSatisfiable | Failed

  /** StaticFileResult. */
  datatype FileResult = FileResult(
    status: Status,
    contentType: string,
    body: string,
    filePath: string,
    fileSize: nat,
    partialContent: bool,
    contentOffset: nat,
    contentLength: nat,
    dynamicBody: bool,
    etag: string,
    gzipEncoded: bool)

  /** What the file system says of the file that is to be served. */
  datatype FileFacts = FileFacts(path: string, size: nat, contentType: string, etag: string)

  function PlainResult(status: Status, body: string): FileResult {
    FileResult(status, "text/plain; charset=utf-8", body, "", 0, false, 0, 0, false, "", false)
  }

  function NotModifiedResult(f: FileFacts): FileResult {
    FileResult(NotModified, f.contentType, "", f.path, f.size, false, 0, 0, false, f.etag, false)
  }

  function UnsatisfiableResult(f: FileFacts): FileResult {
    PlainResult(RangeNotSatisfiable, "Range Not Satisfiable").(fileSize := f.size, etag := f.etag)
  }

  predicate ValidRange(range: Option<Range>, fileSize: nat) {
    range.Some? ==> range.value.start <= range.value.end < fileSize
  }

  function OffsetOf(range: Option<Range>): nat {
    if range.Some? then range.value.start else 0
  }

  function LengthOf(range: Option<Range>, fileSize: nat): nat
    requires ValidRange(range, fileSize)
  {
    if range.Some? then range.value.end - range.value.start + 1 else fileSize
  }

  /** The answer when the file's content is at hand in the cache. */
  function CachedResult(f: FileFacts, range: Option<Range>, content: string): FileResult
    requires ValidRange(range, f.size)
  {
    var offset, length := OffsetOf(range), LengthOf(range, f.size);
    FileResult(Found, f.contentType, Slice(content, offset, length), f.path, f.size,
               range.Some?, offset, length, true, f.etag, false)
  }

  /** The answer when the event loop is to send the file itself. */
  function StreamedResult(f: FileFacts, range: Option<Range>): FileResult
    requires ValidRange(range, f.size)
  {
    FileResult(Found, f.contentType, "", f.path, f.size,
               range.Some?, OffsetOf(range), LengthOf(range, f.size), false, f.etag, false)
  }

  function ContentRange(file: FileResult): string {
    "bytes " + Print(file.contentOffset) + "-"
    + Print(if file.contentOffset + file.contentLength == 0 then WORD_MAX else file.contentOffset + file.contentLength - 1)
    + "/" + Print(file.fileSize)
  }

  /** The head of a 200 or 206 answer, before any body is set. */
  function FoundHead(file: FileResult, keepAlive: bool): Response {
    var base := if file.partialContent then NewResponse(206, "Partial Content") else NewResponse(200, "OK");
    var h1 := if file.etag == "" then [] else SetHeader([], "ETag", file.etag);
    var h2 := if file.gzipEncoded
              then SetHeader(SetHeader(h1, "Content-Encoding", "gzip"), "Vary", "Accept-Encoding") else h1;
    var h3 := if file.partialContent then SetHeader(h2, "Content-Range", ContentRange(file)) else h2;
    base.(contentType := file.contentType, contentLength := file.contentLength, headers := h3, keepAlive := keepAlive)
  }

  /** makeStaticFileResponseResult. */
  function StaticFileResponse(file: FileResult, keepAlive: bool, includeBody: bool): Result {
    match file.status
    case Found =>
      var head := FoundHead(file, keepAlive);
      if file.dynamicBody then MakeResult(SetBody(head, file.body), keepAlive, includeBody)
      else MakeResult(head, keepAlive, false).(
        sendFile := includeBody, filePath := file.filePath, fileSize := file.fileSize,
        fileOffset := file.contentOffset, fileTransferSize := file.contentLength, contentType := file.contentType)
    case NotModified =>
      var headers := if file.etag == "" then [] else SetHeader([], "ETag", file.etag);
      MakeResult(NewResponse(304, "Not Modified").(contentType := file.contentType, keepAlive := keepAlive,
                                                   headers := headers), keepAlive, false)
    case RangeNotSatisfiable =>
      MakeResult(SetBody(NewResponse(416, "Range Not Satisfiable"), file.body).(
        keepAlive := keepAlive, headers := SetHeader([], "Content-Range", "bytes */" + Print(file.fileSize))),
        keepAlive, includeBody)
    case BadRequest => MakeResult(SetBody(NewResponse(400, "Bad Request"), file.body).(keepAlive := keepAlive),
                                  keepAlive, includeBody)
    case Forbidden => MakeResult(SetBody(NewResponse(403, "Forbidden"), file.body).(keepAlive := keepAlive),
                                 keepAlive, includeBody)
    case NotFound => TextResult(404, "Not Found", keepAlive, includeBody)
    case Failed => TextResult(500, "Internal Server Error", keepAlive, includeBody)
  }

  /** The part of a file that a transfer covers; a file shorter than promised gives what it has. */
  function Slice(data: string, offset: nat, size: nat): string {
    var start := if offset < |data| then offset else |data|;
    var end := if offset + size < |data| then offset + size else |data|;
    data[start..end]
  }

  /** All bytes a client receives for a result, given the content of the file it may name. */
  function WireBytes(r: Result, data: string): string {
    r.response + if r.sendFile then Slice(data, r.fileOffset, r.fileTransferSize) else ""
  }

  /** Setting a body moves it into the text; the head is the one that announces its length. */
  lemma BodyInText(r: Response, body: string, includeBody: bool)
    requires r.contentLength == |body|
    ensures ToText(SetBody(r, body), includeBody) == ToText(r, false) + if includeBody then body else ""
  {
    hide RenderFields, Print;
    assert ToText(r, false) + "" == ToText(r, false);
  }

  /** Served from the cache or streamed: the same status, length, persistence and bytes on the wire. */
  lemma CachedEqualsStreamed(f: FileFacts, range: Option<Range>, data: string, keepAlive: bool, includeBody: bool)
    requires |data| == f.size && ValidRange(range, f.size)
    ensures var cached := StaticFileResponse(CachedResult(f, range, data), keepAlive, includeBody);
            var streamed := StaticFileResponse(StreamedResult(f, range), keepAlive, includeBody);
            && WireBytes(cached, data) == WireBytes(streamed, data)
            && cached.statusCode == streamed.statusCode
            && cached.bodySize == streamed.bodySize
            && cached.keepAlive == streamed.keepAlive == keepAlive
            && !cached.closeAfterWrite && !streamed.closeAfterWrite
  {
    hide ToText, FoundHead;
    var file := CachedResult(f, range, data);
    SameHead(f, range, data, keepAlive);
    BodyInText(FoundHead(file, keepAlive), file.body, includeBody);
    assert ToText(FoundHead(file, keepAlive), false) + "" == ToText(FoundHead(file, keepAlive), false);
    assert Slice(data, file.contentOffset, file.contentLength) == file.body;
  }

  lemma SameHead(f: FileFacts, range: Option<Range>, data: string, keepAlive: bool)
    requires |data| == f.size && ValidRange(range, f.size)
    ensures FoundHead(CachedResult(f, range, data), keepAlive) == FoundHead(StreamedResult(f, range), keepAlive)
    ensures FoundHead(CachedResult(f, range, data), keepAlive).contentLength == LengthOf(range, f.size)
    ensures FoundHead(CachedResult(f, range, data), keepAlive).statusCode == if range.Some? then 206 else 200
  {
    hide SetHeader, Print, ContentRange;
    assert ContentRange(CachedResult(f, range, data)) == ContentRange(StreamedResult(f, range)) by {
      SameContentRange(f, range, data);
    }
  }

  lemma SameContentRange(f: FileFacts, range: Option<Range>, data: string)
    requires |data| == f.size && ValidRange(range, f.size)
    ensures ContentRange(CachedResult(f, range, data)) == ContentRange(StreamedResult(f, range))
  {
    hide Print;
  }

  predicate OneLineFacts(file: FileResult) {
    '\n' !in file.contentType && '\n' !in file.etag
  }

  /** The headers a static answer may add stay on their lines and are not the two announced ones. */
  lemma QuietNames(value: string)
    requires '\n' !in value
    ensures IsQuiet(Field("ETag", value)) && IsQuiet(Field("Content-Range", value))
    ensures IsQuiet(Field("Content-Encoding", value)) && IsQuiet(Field("Vary", value))
  {
  }

  lemma FoundHeadOnOwnLines(file: FileResult, keepAlive: bool)
    requires OneLineFacts(file)
    ensures OnOwnLines(FoundHead(file, keepAlive))
  {
    hide SetHeader, IsQuiet, Print;
    var h1 := if file.etag == "" then [] else SetHeader([], "ETag", file.etag);
    QuietNames(file.etag);
    if file.etag != "" { SetHeaderQuiet([], "ETag", file.etag); }
    QuietNames("gzip");
    SetHeaderQuiet(h1, "Content-Encoding", "gzip");
    QuietNames("Accept-Encoding");
    SetHeaderQuiet(SetHeader(h1, "Content-Encoding", "gzip"), "Vary", "Accept-Encoding");
    var h2 := if file.gzipEncoded
              then SetHeader(SetHeader(h1, "Content-Encoding", "gzip"), "Vary", "Accept-Encoding") else h1;
    ContentRangeOneLine(file);
    QuietNames(ContentRange(file));
    SetHeaderQuiet(h2, "Content-Range", ContentRange(file));
  }

  lemma ContentRangeOneLine(file: FileResult)
    ensures '\n' !in ContentRange(file)
  {
    hide Print;
    PrintIsCore(file.contentOffset);
    PrintIsCore(if file.contentOffset + file.contentLength == 0 then WORD_MAX else file.contentOffset + file.contentLength - 1);
    PrintIsCore(file.fileSize);
  }

  /** Every static answer announces its length and persistence truthfully in its head. */
  lemma StaticAnnounces(file: FileResult, keepAlive: bool, includeBody: bool)
    requires OneLineFacts(file)
    ensures var r := StaticFileResponse(file, keepAlive, includeBody);
            Announces(r.response, r.statusCode, r.bodySize, keepAlive) && r.keepAlive == keepAlive && !r.closeAfterWrite
  {
    hide ToText, SetHeader, FoundHead, Announces, OnOwnLines, Print;
    match file.status
    case Found =>
      FoundHeadOnOwnLines(file, keepAlive);
      var head := FoundHead(file, keepAlive);
      FoundHeadFacts(file, keepAlive);
      if file.dynamicBody {
        SetBodyOnOwnLines(head, file.body);
        TextAnnounces(SetBody(head, file.body), includeBody);
      } else {
        TextAnnounces(head, false);
      }
    case NotModified =>
      NotModifiedOnOwnLines(file, keepAlive);
      var headers := if file.etag == "" then [] else SetHeader([], "ETag", file.etag);
      TextAnnounces(NewResponse(304, "Not Modified").(contentType := file.contentType, keepAlive := keepAlive,
                                                      headers := headers), false);
    case RangeNotSatisfiable =>
      UnsatisfiableOnOwnLines(file, keepAlive);
      TextAnnounces(SetBody(NewResponse(416, "Range Not Satisfiable"), file.body).(
        keepAlive := keepAlive, headers := SetHeader([], "Content-Range", "bytes */" + Print(file.fileSize))), includeBody);
    case BadRequest =>
      BodyOnlyAnnounces(400, "Bad Request", file.body, keepAlive, includeBody);
    case Forbidden =>
      BodyOnlyAnnounces(403, "Forbidden", file.body, keepAlive, includeBody);
    case NotFound =>
      BodyOnlyAnnounces(404, "Not Found", "Not Found", keepAlive, includeBody);
    case Failed =>
      BodyOnlyAnnounces(500, "Internal Server Error", "Internal Server Error", keepAlive, includeBody);
  }

  lemma FoundHeadFacts(file: FileResult, keepAlive: bool)
    ensures FoundHead(file, keepAlive).contentLength == file.contentLength
    ensures FoundHead(file, keepAlive).keepAlive == keepAlive
    ensures FoundHead(file, keepAlive).statusCode == if file.partialContent then 206 else 200
  {
  }

  lemma SetBodyOnOwnLines(r: Response, body: string)
    requires OnOwnLines(r)
    ensures OnOwnLines(SetBody(r, body))
  {
  }

  lemma NotModifiedOnOwnLines(file: FileResult, keepAlive: bool)
    requires OneLineFacts(file)
    ensures OnOwnLines(NewResponse(304, "Not Modified").(contentType := file.contentType, keepAlive := keepAlive,
              headers := if file.etag == "" then [] else SetHeader([], "ETag", file.etag)))
  {
    hide SetHeader, IsQuiet;
    QuietNames(file.etag);
    if file.etag != "" { SetHeaderQuiet([], "ETag", file.etag); }
  }

  lemma UnsatisfiableOnOwnLines(file: FileResult, keepAlive: bool)
    ensures OnOwnLines(SetBody(NewResponse(416, "Range Not Satisfiable"), file.body).(
              keepAlive := keepAlive, headers := SetHeader([], "Content-Range", "bytes */" + Print(file.fileSize))))
  {
    hide SetHeader, IsQuiet, Print, AllQuiet, OnOwnLines;
    var value := "bytes */" + Print(file.fileSize);
    assert '\n' !in value by {
      PrintIsCore(file.fileSize);
    }
    QuietNames(value);
    NoHeadersQuiet();
    SetHeaderQuiet([], "Content-Range", value);
    PlainTextOneLine();
    WithHeader(SetBody(NewResponse(416, "Range Not Satisfiable"), file.body).(keepAlive := keepAlive),
               SetHeader([], "Content-Range", value));
  }

  lemma PlainTextOneLine()
    ensures '\n' !in "Range Not Satisfiable" && '\n' !in "text/plain; charset=utf-8"
  {
  }

  lemma WithHeader(r: Response, headers: seq<Field>)
    requires '\n' !in r.statusText && '\n' !in r.contentType && AllQuiet(headers)
    ensures OnOwnLines(r.(headers := headers))
  {
  }

  lemma NoHeadersQuiet()
    ensures AllQuiet([])
  {
  }

  lemma BodyOnlyAnnounces(statusCode: nat, statusText: string, body: string, keepAlive: bool, includeBody: bool)
    requires '\n' !in statusText
    ensures var r := MakeResult(SetBody(NewResponse(statusCode, statusText), body).(keepAlive := keepAlive),
                                keepAlive, includeBody);
            Announces(r.response, r.statusCode, r.bodySize, keepAlive) && r.keepAlive == keepAlive && !r.closeAfterWrite
  {
    hide ToText, Announces;
    var r := SetBody(NewResponse(statusCode, statusText), body).(keepAlive := keepAlive);
    assert OnOwnLines(r);
    TextAnnounces(r, includeBody);
  }
}
