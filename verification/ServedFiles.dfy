/**
 * From the file on disk to the bytes a client gets: what the static file handler answers for a
 * GET, carried through the worker, the completion and the delivery.
 */
module ServedFiles {
  import opened Options
  import opened Text
  import opened HttpParser
  import opened HttpGrammar
  import opened Framing
  import opened HttpRoundTrip
  import opened ByteRange
  import opened HttpResponses
  import opened StaticFiles
  import opened StaticHeaders
  import opened StaticServing
  import opened Lru
  import opened Responder
  import opened Connections
  import opened ConnectionSafety
  import opened Wires
  import Etag
  import Hexadecimal

  /** A GET that is neither for a route nor for the WebSocket endpoint, and whose handling does not throw. */
  predicate AsksForFile(w: World, at: nat, request: Request) {
    request.verb == "GET" && !w.throws(at, request) && !IsWebSocketEndpoint(request.path) && !IsApiPath(request.path)
  }

  /** A field of the request, if it has one of that name. */
  function Sent(request: Request, name: string): Option<string> {
    if name in request.headers then Some(request.headers[name]) else None
  }

  /**
   * The world's answer is that of the static file handler with some cache, asked for the path of the
   * request with its Range, If-None-Match and Accept-Encoding fields.
   */
  predicate IsHandled(w: World, at: nat, request: Request, entries: seq<Entry>, limits: Limits, q: Inquiry) {
    && q.range == Sent(request, "range") && q.ifNoneMatch == Sent(request, "if-none-match")
    && w.file(at, FileQuery(request.path, Sent(request, "range"), Sent(request, "if-none-match"), Sent(request, "accept-encoding")))
       == Serve(entries, limits, q).0
  }

  /** The handler is asked what the request says. */
  lemma QueryIsSent(w: World, at: nat, request: Request, entries: seq<Entry>, limits: Limits, q: Inquiry)
    requires AsksForFile(w, at, request) && IsHandled(w, at, request, entries, limits, q)
    ensures BuildResponse(w, at, request) == StaticFileResponse(Serve(entries, limits, q).0, request.keepAlive, true)
    ensures w.file(at, QueryOf(request)) == Serve(entries, limits, q).0
  {
    hide Serve, StaticFileResponse, IsWebSocketEndpoint, IsApiPath;
  }

  /** The part of a file from `start` on is what the request asks for: the positions its range selects, or all. */
  ghost predicate IsSelection(range: Option<string>, data: string, start: nat, part: string) {
    && start + |part| <= |data| && part == data[start..start + |part|]
    && match range
       case None => part == data
       case Some(header) =>
         && (exists first, last :: IsSingleRange(header, first, last))
         && forall first, last :: IsSingleRange(header, first, last) ==>
              part != "" && forall p: nat :: start <= p < start + |part| <==> Selects(first, last, |data|, p)
  }

  /** The range the handler resolves covers the positions the header selects. */
  lemma SliceIsSelection(q: Inquiry, data: string)
    requires |data| == q.size && !IsUnsatisfiable(q) && ValidRange(RangeOf(q), q.size)
    ensures var offset, length := OffsetOf(RangeOf(q)), LengthOf(RangeOf(q), q.size);
            |Slice(data, offset, length)| == length && IsSelection(q.range, data, offset, Slice(data, offset, length))
  {
    hide ParseRange, Selects, IsSingleRange;
    var offset, length := OffsetOf(RangeOf(q)), LengthOf(RangeOf(q), q.size);
    assert Slice(data, offset, length) == data[offset..offset + length];
    if q.range.Some? {
      RangeExact(q.range.value, q.size);
    } else {
      assert data[0..|data|] == data;
    }
  }

  /** A result delivered with the content of its file at hand is on the wire what WireBytes says. */
  lemma PayloadIsWireBytes(request: Request, result: Result, close: bool, data: string)
    ensures EmissionOf(request, result, close, Some(data)).Payload() == WireBytes(result, data)
    ensures EmissionOf(request, result, close, Some(data)).result == result
  {
    hide TextResult;
    assert result.response + "" == result.response;
  }

  lemma UnsentContentIsNoMatter(request: Request, result: Result, close: bool, content: Option<string>, other: Option<string>)
    requires !result.sendFile
    ensures EmissionOf(request, result, close, content) == EmissionOf(request, result, close, other)
  {
    hide TextResult;
  }

  /** What the handler finds for a readable file: the file is named, and its type and tag are the file's. */
  lemma FoundIs(entries: seq<Entry>, limits: Limits, q: Inquiry, data: string, contents: Contents)
    requires AllRemember(entries, contents) && Reads(q, data, contents) && !IsUnmodified(q) && !IsUnsatisfiable(q)
    requires ValidRange(RangeOf(q), q.size)
    ensures var file, streamed := Serve(entries, limits, q).0, Serve([], NO_CACHE, q).0;
            && streamed == StreamedResult(Facts(q), RangeOf(q))
            && file.status == Found && file.filePath == q.path
            && file.contentType == streamed.contentType && file.etag == streamed.etag
  {
    hide ParseRange, IsUnmodified, IsUnsatisfiable, RangeOf, Etag.EtagForFile, AllRemember, Lookup, Without, Slice;
    assert data[..q.size] == data;
    CallIsTransparent(entries, limits, CallFor(q), contents);
  }

  /** The text of a streamed answer is its head alone, and a client reads its end and length off it. */
  lemma StreamedHead(f: FileFacts, range: Option<Range>, keepAlive: bool, data: string)
    requires ValidRange(range, f.size) && OneLineFacts(StreamedResult(f, range))
    ensures var result := StaticFileResponse(StreamedResult(f, range), keepAlive, true);
            && WireBytes(result, data) == result.response + Slice(data, OffsetOf(range), LengthOf(range, f.size))
            && CompleteHeaderLength(WireBytes(result, data)) == Some(|result.response|)
            && BodyAnnounced(result.response) == LengthOf(range, f.size)
            && result.statusCode == if range.Some? then 206 else 200
  {
    hide ToText, OnOwnLines, CompleteHeaderLength, BodyAnnounced, OneLineFacts, SetHeader, ContentRange, Slice;
    var head := FoundHead(StreamedResult(f, range), keepAlive);
    FoundHeadOnOwnLines(StreamedResult(f, range), keepAlive);
    HeadIsRead(head, Slice(data, OffsetOf(range), LengthOf(range, f.size)));
  }

  lemma NamesItsFile(file: FileResult, keepAlive: bool)
    requires file.status == Found
    ensures var result := StaticFileResponse(file, keepAlive, true); result.sendFile ==> result.filePath == file.filePath
  {
    hide ToText, FoundHead, SetBody;
  }

  /** The response of a file is on the wire what a server without a cache would send. */
  lemma ServedIsWireBytes(w: World, request: Request, built: nat, delivered: nat,
                          entries: seq<Entry>, limits: Limits, q: Inquiry, data: string, contents: Contents)
    requires AsksForFile(w, built, request) && IsHandled(w, built, request, entries, limits, q)
    requires AllRemember(entries, contents) && Reads(q, data, contents) && w.onDisk(delivered, q.path) == Some(data)
    requires !IsUnmodified(q) && !IsUnsatisfiable(q) && ValidRange(RangeOf(q), q.size)
    ensures var e := ServedAt(w, request, built, delivered);
            var result := StaticFileResponse(StreamedResult(Facts(q), RangeOf(q)), request.keepAlive, true);
            e.Payload() == WireBytes(result, data) && e.result.statusCode == result.statusCode
  {
    hide AllRemember, Reads, IsUnmodified, IsUnsatisfiable, Serve, WireBytes, Facts, Slice, StaticFileResponse, EmissionOf;
    hide QueryOf, StreamedResult, AsksForFile, IsHandled, BuildResponse;
    var file := Serve(entries, limits, q).0;
    FoundIs(entries, limits, q, data, contents);
    ServedAsStreamed(entries, limits, q, data, contents, request.keepAlive, true);
    var result := BuildResponse(w, built, request);
    QueryIsSent(w, built, request, entries, limits, q);
    NamesItsFile(file, request.keepAlive);
    if !result.sendFile {
      UnsentContentIsNoMatter(request, result, Closes(request, result), w.onDisk(delivered, result.filePath), Some(data));
    }
    PayloadIsWireBytes(request, result, Closes(request, result), data);
  }

  /** The head says of the file and of the part of it that follows what is so. */
  ghost predicate IsDescribed(head: string, q: Inquiry, start: nat, part: string, keepAlive: bool) {
    && Announces(head, if q.range.Some? then 206 else 200, |part|, keepAlive)
    && HeaderValues(head, "etag") == [Etag.EtagForFile(q.path, q.size, q.modified)]
    && HeaderValues(head, "content-type") == [Trim(q.contentType)]
    && var ranges := HeaderValues(head, "content-range");
       if q.range.None? then ranges == []
       else |ranges| == 1 && part != "" && IsContentRange(ranges[0], start, start + |part| - 1, q.size)
  }

  lemma TagIsCore(path: string, size: nat, modified: Etag.Ticks)
    ensures var tag := Etag.EtagForFile(path, size, modified); tag != "" && Trim(tag) == tag
  {
    hide Trim, Hexadecimal.ToHex, Etag.Fnv1a64;
    var tag := Etag.EtagForFile(path, size, modified);
    assert tag[0] == '"' && tag[|tag| - 1] == '"';
    TrimCore(tag);
  }

  lemma HeadDescribes(q: Inquiry, keepAlive: bool, data: string)
    requires |data| == q.size && !IsUnsatisfiable(q) && ValidRange(RangeOf(q), q.size)
    requires OneLineFacts(StreamedResult(Facts(q), RangeOf(q)))
    ensures IsDescribed(StaticFileResponse(StreamedResult(Facts(q), RangeOf(q)), keepAlive, true).response, q,
                        OffsetOf(RangeOf(q)), Slice(data, OffsetOf(RangeOf(q)), LengthOf(RangeOf(q), q.size)), keepAlive)
  {
    hide ParseRange, Etag.EtagForFile, StaticFileResponse, Announces, Trim, HeaderValues, IsContentRange, Slice;
    var file := StreamedResult(Facts(q), RangeOf(q));
    SliceIsSelection(q, data);
    TagIsCore(q.path, q.size, q.modified);
    FoundIsDescribed(file, keepAlive, true);
    StaticAnnounces(file, keepAlive, true);
    StreamedStatus(Facts(q), RangeOf(q), keepAlive);
  }

  lemma StreamedStatus(f: FileFacts, range: Option<Range>, keepAlive: bool)
    requires ValidRange(range, f.size)
    ensures var result := StaticFileResponse(StreamedResult(f, range), keepAlive, true);
            result.statusCode == (if range.Some? then 206 else 200) && result.bodySize == LengthOf(range, f.size)
  {
    hide FoundHead, ToText;
    FoundHeadFacts(StreamedResult(f, range), keepAlive);
  }

  /**
   * A GET for a readable file that is not declined: whatever the cache holds, the client gets a
   * head and then exactly the bytes of the file that the request's Range field selects, as many as
   * the head says; the head names the type and the tag of the file and the positions that follow.
   */
  lemma ServedFileBytes(w: World, request: Request, built: nat, delivered: nat,
                        entries: seq<Entry>, limits: Limits, q: Inquiry, data: string, contents: Contents)
      returns (head: string, start: nat, part: string)
    requires IsPossible(w) && AsksForFile(w, built, request) && IsHandled(w, built, request, entries, limits, q)
    requires AllRemember(entries, contents) && Reads(q, data, contents) && w.onDisk(delivered, q.path) == Some(data)
    requires !NamesCurrentTag(Sent(request, "if-none-match"), q.path, q.size, q.modified)
    requires Sent(request, "range").Some? ==> SelectsSome(request.headers["range"], q.size)
    ensures var e := ServedAt(w, request, built, delivered);
            && e.Payload() == head + part && IsSelection(Sent(request, "range"), data, start, part)
            && CompleteHeaderLength(e.Payload()) == Some(|head|)
            && IsDescribed(head, q, start, part, request.keepAlive)
            && e.result.statusCode == if "range" in request.headers then 206 else 200
  {
    hide CompleteHeaderLength, AllRemember, IsUnmodified, Serve, WireBytes, Etag.EtagForFile, ParseRange, SelectsSome;
    hide StaticFileResponse, EmissionOf, QueryOf, IsSelection, StreamedResult, Slice, BuildResponse, NamesCurrentTag, IsDescribed;
    hide IsUnsatisfiable, BodyAnnounced;
    RangeIsValid(q);
    UnmodifiedIsNamed(q);
    UnsatisfiableSelectsNone(q);
    ServedIsWireBytes(w, request, built, delivered, entries, limits, q, data, contents);
    var streamed := StreamedResult(Facts(q), RangeOf(q));
    var result := StaticFileResponse(streamed, request.keepAlive, true);
    FoundIs(entries, limits, q, data, contents);
    QueryIsSent(w, built, request, entries, limits, q);
    assert OneLineFacts(w.file(built, QueryOf(request)));
    StreamedHead(Facts(q), RangeOf(q), request.keepAlive, data);
    SliceIsSelection(q, data);
    HeadDescribes(q, request.keepAlive, data);
    RangeIsKept(q);
    head, start, part := result.response, OffsetOf(RangeOf(q)), Slice(data, OffsetOf(RangeOf(q)), LengthOf(RangeOf(q), q.size));
  }

  lemma RangeIsKept(q: Inquiry)
    requires !IsUnsatisfiable(q)
    ensures RangeOf(q).Some? <==> q.range.Some?
  {
    hide ParseRange;
  }

  /**
   * What the answer to a GET for a file is: 304 exactly for a client that names the current tag,
   * then 416 exactly for a range that selects nothing, and otherwise the file, or 500 where it
   * belongs into the cache and cannot be read.
   */
  lemma StatusIsDecided(w: World, at: nat, request: Request, entries: seq<Entry>, limits: Limits, q: Inquiry)
    requires AsksForFile(w, at, request) && IsHandled(w, at, request, entries, limits, q)
    ensures var code := BuildResponse(w, at, request).statusCode;
            var current := NamesCurrentTag(Sent(request, "if-none-match"), q.path, q.size, q.modified);
            var empty := "range" in request.headers && !SelectsSome(request.headers["range"], q.size);
            && (code == 304 <==> current)
            && (code == 416 <==> !current && empty)
            && (code == 206 ==> "range" in request.headers) && (code == 200 ==> "range" !in request.headers)
            && (code != 304 && code != 416 && code != 206 && code != 200 ==>
                  code == 500 && CanCache(limits, q.size) && OneCall(entries, limits, CallFor(q)).0.None?)
  {
    hide Serve, StaticFileResponse, BuildResponse, NamesCurrentTag, SelectsSome, QueryOf, CanCache, OneCall, AsksForFile;
    QueryIsSent(w, at, request, entries, limits, q);
    AnswerIsDecided(entries, limits, q);
    FileStatusCode(Serve(entries, limits, q).0, request.keepAlive);
    FoundIsPartial(entries, limits, q);
  }

  lemma FileStatusCode(file: FileResult, keepAlive: bool)
    ensures var code := StaticFileResponse(file, keepAlive, true).statusCode;
            && (file.status == NotModified ==> code == 304) && (file.status == RangeNotSatisfiable ==> code == 416)
            && (file.status == Found ==> code == if file.partialContent then 206 else 200)
            && (file.status == Failed ==> code == 500) && (file.status == NotFound ==> code == 404)
            && (file.status == Forbidden ==> code == 403) && (file.status == BadRequest ==> code == 400)
  {
    hide ToText, FoundHead, SetHeader;
    FoundHeadFacts(file, keepAlive);
  }

  lemma FoundIsPartial(entries: seq<Entry>, limits: Limits, q: Inquiry)
    ensures Serve(entries, limits, q).0.status == Found ==> (Serve(entries, limits, q).0.partialContent <==> q.range.Some?)
  {
    hide IsUnmodified, ParseRange, OneCall, Etag.EtagForFile, Slice;
    RangeIsValid(q);
  }

  /** A client that sends back a tag it was given is answered 304 exactly while size and time are the same. */
  lemma RevalidationStatus(w: World, at: nat, request: Request, entries: seq<Entry>, limits: Limits, q: Inquiry,
                           size: nat, modified: Etag.Ticks)
    requires AsksForFile(w, at, request) && IsHandled(w, at, request, entries, limits, q)
    requires Sent(request, "if-none-match") == Some(Etag.EtagForFile(q.path, size, modified))
    ensures BuildResponse(w, at, request).statusCode == 304 <==> size == q.size && modified == q.modified
  {
    hide Serve, StaticFileResponse, BuildResponse, NamesCurrentTag, SelectsSome, QueryOf, CanCache, OneCall, AsksForFile;
    hide Etag.EtagForFile;
    StatusIsDecided(w, at, request, entries, limits, q);
    AnswerIsDecided(entries, limits, q);
    RevalidationIsExact(entries, limits, q, size, modified);
  }

  /** A field the client wrote once is what the handler is asked with. */
  lemma SentAsWritten(rl: RequestLine, fields: seq<Field>, body: string, name: string)
    requires IsHead(rl, fields) && ParseRequest(Render(rl, fields)).Some? && |FieldValues(fields, name)| <= 1
    ensures var request := ParseRequest(Render(rl, fields)).value.(body := body);
            && request.path == rl.target
            && Sent(request, name) == if FieldValues(fields, name) == [] then None else Some(FieldValues(fields, name)[0])
  {
    hide ParseRequest, Render, IsHead, FieldValues, KeepsOpen, LengthFieldOk;
    RenderedIsParsed(rl, fields);
    var request := ParseRequest(Render(rl, fields)).value;
    assert EntryIs(request.headers, FieldValues(fields, name), name);
  }
}
