/**
 * The client's side of the wire: cutting the bytes that come back into responses by their
 * heads and Content-Length, and exactly when that gives the responses the server sent.
 */
module Wires {
  import opened Options
  import opened Text
  import opened Decimal
  import opened HttpParser
  import opened HttpGrammar
  import opened Framing
  import opened SentMethods
  import opened HttpRoundTrip
  import opened HttpResponses
  import opened StaticFiles
  import opened Responder
  import opened Connections
  import opened ConnectionSafety
  import opened ConnectionSteps
  import opened Servers
  import opened ServerSafety
  import opened ServerSteps
  import opened ServerTheorems
  import opened ShortBodies
  import Base64
  import ThreadPools
  import Lists

  // ---- What a client does ----

  /** The body length a response head announces; none where it has no Content-Length. */
  function BodyAnnounced(head: string): nat {
    if head == "" || !AllFieldLines(FieldLines(head, LineNext(head, 0))) then 0 else
    var values := HeaderValues(head, "content-length");
    if |values| == 1 && AllDigits(values[0]) then Value(values[0]) else 0
  }

  /** Where the first response on the wire ends; one to HEAD has no body (section 6.3 of RFC 9112). */
  function ResponseLength(isHead: bool, wire: string): Option<nat> {
    var head := CompleteHeaderLength(wire);
    if head.None? then None
    else Some(head.value + if isHead then 0 else BodyAnnounced(wire[..head.value]))
  }

  /** The whole responses a client that knows which of its requests were HEAD cuts off the wire. */
  function CutWire(heads: seq<bool>, wire: string): seq<string>
    decreases |heads|
  {
    if heads == [] then [] else
    var length := ResponseLength(heads[0], wire);
    if length.None? || length.value > |wire| then []
    else [wire[..length.value]] + CutWire(heads[1..], wire[length.value..])
  }

  // ---- What the server sends ----

  /** A text head on lines of its own, and then the body it announces, unless it is left to sendfile or to nobody. */
  ghost predicate ShapedAs(result: Result, includeBody: bool, r: Response, body: string) {
    && OnOwnLines(r) && result.response == ToText(r, false) + body && result.bodySize == r.contentLength
    && (if includeBody && !result.sendFile then |body| == r.contentLength else body == "")
    && (result.sendFile ==> includeBody)
  }

  ghost predicate Shaped(result: Result, includeBody: bool) {
    exists r, body :: ShapedAs(result, includeBody, r, body)
  }

  lemma HeadAndBody(r: Response, includeBody: bool)
    ensures ToText(r, includeBody) == ToText(r, false) + if includeBody then r.body else ""
  {
    hide RenderFields, Print, ConnectionOption;
    assert ToText(r, false) + "" == ToText(r, false);
  }

  /** A response rendered with its own body. */
  lemma MadeIsShaped(r: Response, keepAlive: bool, includeBody: bool)
    requires OnOwnLines(r) && r.contentLength == |r.body|
    ensures Shaped(MakeResult(r, keepAlive, includeBody), includeBody)
  {
    hide ToText, OnOwnLines;
    HeadAndBody(r, includeBody);
    assert ShapedAs(MakeResult(r, keepAlive, includeBody), includeBody, r, if includeBody then r.body else "");
  }

  lemma TextIsShaped(statusCode: nat, text: string, body: string, keepAlive: bool, includeBody: bool)
    requires '\n' !in text
    ensures Shaped(MakeResult(SetBody(NewResponse(statusCode, text), body).(keepAlive := keepAlive),
                              keepAlive, includeBody), includeBody)
  {
    hide ToText, Shaped;
    MadeIsShaped(SetBody(NewResponse(statusCode, text), body).(keepAlive := keepAlive), keepAlive, includeBody);
  }

  lemma HeadOnlyIsShaped(result: Result, r: Response, includeBody: bool)
    requires OnOwnLines(r) && result.response == ToText(r, false) && result.bodySize == r.contentLength
    requires if result.sendFile then includeBody else (!includeBody || r.contentLength == 0)
    ensures Shaped(result, includeBody)
  {
    hide ToText, OnOwnLines;
    assert ToText(r, false) + "" == ToText(r, false);
    assert ShapedAs(result, includeBody, r, "");
  }

  lemma StaticIsShaped(file: FileResult, keepAlive: bool, includeBody: bool)
    requires OneLineFacts(file)
    ensures Shaped(StaticFileResponse(file, keepAlive, includeBody), includeBody)
  {
    hide ToText, SetHeader, FoundHead, OnOwnLines, Print, Shaped;
    match file.status
    case Found =>
      FoundHeadOnOwnLines(file, keepAlive);
      var head := FoundHead(file, keepAlive);
      if file.dynamicBody {
        SetBodyOnOwnLines(head, file.body);
        MadeIsShaped(SetBody(head, file.body), keepAlive, includeBody);
      } else {
        HeadOnlyIsShaped(StaticFileResponse(file, keepAlive, includeBody), head, includeBody);
      }
    case NotModified =>
      NotModifiedOnOwnLines(file, keepAlive);
      var headers := if file.etag == "" then [] else SetHeader([], "ETag", file.etag);
      HeadOnlyIsShaped(StaticFileResponse(file, keepAlive, includeBody),
                       NewResponse(304, "Not Modified").(contentType := file.contentType, keepAlive := keepAlive,
                                                         headers := headers), includeBody);
    case RangeNotSatisfiable =>
      UnsatisfiableOnOwnLines(file, keepAlive);
      MadeIsShaped(SetBody(NewResponse(416, "Range Not Satisfiable"), file.body).(
        keepAlive := keepAlive, headers := SetHeader([], "Content-Range", "bytes */" + Print(file.fileSize))),
        keepAlive, includeBody);
    case BadRequest => TextIsShaped(400, "Bad Request", file.body, keepAlive, includeBody);
    case Forbidden => TextIsShaped(403, "Forbidden", file.body, keepAlive, includeBody);
    case NotFound => TextIsShaped(404, "Not Found", "Not Found", keepAlive, includeBody);
    case Failed => TextIsShaped(500, "Internal Server Error", "Internal Server Error", keepAlive, includeBody);
  }

  ghost predicate IsUpgrade(result: Result) {
    exists key: seq<Base64.Byte> :: result == UpgradeResult(Base64.EncodeText(key))
  }

  lemma BuiltIsShaped(w: World, at: nat, request: Request)
    requires IsPossible(w)
    ensures var result := BuildResponse(w, at, request);
            Shaped(result, request.verb != "HEAD") || (IsUpgrade(result) && request.verb == "GET")
  {
    hide ToText, HandshakeKey, IsWebSocketEndpoint, IsApiPath, StaticFileResponse, Base64.EncodeText, OnOwnLines;
    hide OneLineFacts;
    hide Shaped, QueryOf, SwitchingProtocols;
    var includeBody := request.verb != "HEAD";
    if w.throws(at, request) {
      TextIsShaped(500, "Internal Server Error", "Internal Server Error", request.keepAlive, includeBody);
    } else if IsWebSocketEndpoint(request.path) {
      var key := HandshakeKey(request);
      if key.None? {
        TextIsShaped(400, "Bad Request", "Bad Request", false, includeBody);
        ShapedClosing(TextResult(400, "Bad Request", false, includeBody), includeBody);
      } else {
        KeyIsForGet(request);
        assert BuildResponse(w, at, request) == UpgradeResult(Base64.EncodeText(w.digest(key.value)));
      }
    } else if IsApiPath(request.path) {
      var routed := w.routed(at, request);
      assert IsRouteAnswer(routed);
      WithKeepAlive(routed, request.keepAlive);
      MadeIsShaped(routed.(keepAlive := request.keepAlive), request.keepAlive, includeBody);
    } else {
      StaticIsShaped(w.file(at, QueryOf(request)), request.keepAlive, includeBody);
    }
  }

  lemma ShapedClosing(result: Result, includeBody: bool)
    requires Shaped(result, includeBody)
    ensures Shaped(result.(closeAfterWrite := true), includeBody)
  {
    hide ToText, OnOwnLines;
    var r, body :| ShapedAs(result, includeBody, r, body);
    assert ShapedAs(result.(closeAfterWrite := true), includeBody, r, body);
  }

  lemma KeyIsForGet(request: Request)
    ensures HandshakeKey(request).Some? ==> request.verb == "GET"
  {
    hide Base64.DecodeText, Lists.HasLowered, Lists.Elements;
  }

  // ---- Reading a head back ----

  /** Whatever follows a rendered head, the client finds its end and the length it announces. */
  lemma HeadIsRead(r: Response, x: string)
    requires OnOwnLines(r)
    ensures CompleteHeaderLength(ToText(r, false) + x) == Some(|ToText(r, false)|)
    ensures BodyAnnounced(ToText(r, false)) == r.contentLength
  {
    hide CompleteHeaderLength, ToText, RenderFields, Print, OnOwnLines, FieldLines, ValuesOf, IsFieldLine, LineNext, IsToken;
    var first := "HTTP/1.1 " + Print(r.statusCode) + " " + r.statusText;
    TextShape(r, false);
    assert ToText(r, false) == first + "\r\n" + RenderFields(HeadFields(r)) + "\r\n";
    FirstLineIsOne(r);
    ResponseFieldsOneLine(r);
    LinesEnd(first, HeadFields(r), x);
    ValuesAreRead(r, false);
  }

  lemma FirstLineIsOne(r: Response)
    requires OnOwnLines(r)
    ensures var first := "HTTP/1.1 " + Print(r.statusCode) + " " + r.statusText;
            '\n' !in first && first != "" && first[0] != '\r'
  {
    hide Print, AllQuiet;
    PrintIsCore(r.statusCode);
  }

  lemma ResponseFieldsOneLine(r: Response)
    requires OnOwnLines(r)
    ensures OneLineEach(HeadFields(r))
  {
    hide Print, IsToken, ToLower, Texts, ValuesOf, IsFieldLine, ConnectionOption;
    StandardLines(r.contentType, r.contentLength, r.keepAlive);
    HeadFieldsOneLine(r);
  }

  lemma {:induction false} EncodedIsOneLine(bytes: seq<Base64.Byte>)
    ensures '\n' !in Base64.EncodeText(bytes)
  {
    if |bytes| > 3 {
      GroupIsOneLine(bytes[..3]);
      EncodedIsOneLine(bytes[3..]);
    } else if bytes != [] {
      GroupIsOneLine(bytes);
    }
  }

  lemma GroupIsOneLine(bytes: seq<Base64.Byte>)
    requires 1 <= |bytes| <= 3
    ensures '\n' !in Base64.EncodeGroup(bytes)
  {
    hide Base64.Sextet1, Base64.Sextet2, Base64.Sextet3, Base64.Sextet4;
  }

  function UpgradeFields(accept: string): seq<Field> {
    [Field("Upgrade", "websocket"), Field("Connection", "Upgrade"), Field("Sec-WebSocket-Accept", accept)]
  }

  lemma UpgradeShape(accept: string)
    ensures SwitchingProtocols(accept)
         == "HTTP/1.1 101 Switching Protocols" + "\r\n" + RenderFields(UpgradeFields(accept)) + "\r\n"
  {
    hide FieldText;
    var a, b, c := UpgradeFields(accept)[0], UpgradeFields(accept)[1], UpgradeFields(accept)[2];
    RenderThree(a, b, c, []);
    assert UpgradeFields(accept) == [a, b, c] + [];
    UpgradeTexts(accept);
    assert RenderFields([]) == "";
  }

  lemma UpgradeTexts(accept: string)
    ensures FieldText(UpgradeFields(accept)[0]) == "Upgrade: websocket"
    ensures FieldText(UpgradeFields(accept)[1]) == "Connection: Upgrade"
    ensures FieldText(UpgradeFields(accept)[2]) == "Sec-WebSocket-Accept: " + accept
  {
  }

  lemma UpgradeNames()
    ensures IsToken("Upgrade") && IsToken("Connection") && IsToken("Sec-WebSocket-Accept")
    ensures ToLower("Upgrade") != "content-length" && ToLower("Connection") != "content-length"
    ensures ToLower("Sec-WebSocket-Accept") != "content-length"
  {
    hide ToLower;
    assert |ToLower("Upgrade")| == 7 && |ToLower("Connection")| == 10 && |ToLower("Sec-WebSocket-Accept")| == 20;
  }

  /** A protocol switch ends with its head and announces no body. */
  lemma UpgradeIsRead(accept: string, x: string)
    requires '\n' !in accept
    ensures CompleteHeaderLength(SwitchingProtocols(accept) + x) == Some(|SwitchingProtocols(accept)|)
    ensures BodyAnnounced(SwitchingProtocols(accept)) == 0
  {
    hide CompleteHeaderLength, BodyAnnounced, RenderFields, IsToken, SwitchingProtocols, ToLower;
    UpgradeShape(accept);
    UpgradeNames();
    LinesEnd("HTTP/1.1 101 Switching Protocols", UpgradeFields(accept), x);
    NothingAnnounced(SwitchingProtocols(accept), "HTTP/1.1 101 Switching Protocols", UpgradeFields(accept));
  }

  /** The lines of a head read back as the texts of its fields. */
  lemma LinesOfHead(head: string, first: string, fields: seq<Field>)
    requires '\n' !in first && OneLineEach(fields) && head == first + "\r\n" + RenderFields(fields) + "\r\n"
    ensures head != "" && FieldLines(head, LineNext(head, 0)) == Texts(fields)
  {
    hide RenderFields, FieldLines, HeaderBytes, LineNext, LineEnd, IsToken, StripCr, Texts;
    LineAt("", first, RenderFields(fields) + "\r\n");
    assert head == "" + first + "\r\n" + (RenderFields(fields) + "\r\n");
    FieldsAt(first + "\r\n", fields, "");
    assert head == (first + "\r\n") + RenderFields(fields) + "\r\n" + "";
  }

  /** A head without a Content-Length field announces no body. */
  lemma NothingAnnounced(head: string, first: string, fields: seq<Field>)
    requires '\n' !in first && OneLineEach(fields) && head == first + "\r\n" + RenderFields(fields) + "\r\n"
    requires forall i :: 0 <= i < |fields| ==> ToLower(fields[i].name) != "content-length"
    ensures BodyAnnounced(head) == 0
  {
    hide RenderFields, FieldLines, ValuesOf, IsFieldLine, LineNext, IsToken, Texts, ToLower;
    LinesOfHead(head, first, fields);
    NoLengthLine(fields);
  }

  /** Fields of other names hold no Content-Length. */
  lemma NoLengthLine(fields: seq<Field>)
    requires OneLineEach(fields) && forall i :: 0 <= i < |fields| ==> ToLower(fields[i].name) != "content-length"
    ensures AllFieldLines(Texts(fields)) && ValuesOf(Texts(fields), "content-length") == []
  {
    hide IsFieldLine, FieldName, FieldValue, IsToken, FieldText, ToLower;
    TextsAreFieldLines(fields);
    TextsLength(fields);
    var lines := Texts(fields);
    forall i | 0 <= i < |lines| ensures FieldName(lines[i]) != "content-length" {
      TextsAt(fields, i);
      FieldTextOneLine(fields[i]);
    }
    ValuesOfAppend([], lines, "content-length");
    assert [] + lines == lines;
  }

  // ---- Cutting ----

  /** The answers the loop gives by itself, with a body whatever the method. */
  predicate IsRefusal(result: Result) {
    result == BadRequestResult() || result == TooLargeResult() || result == UnavailableResult()
  }

  /** The body is all there, and a refused HEAD is not answered with the body of the refusal. */
  predicate IsWhole(isHead: bool, e: Emission) {
    && (e.result.sendFile ==> |e.attachment| == e.result.bodySize)
    && !(isHead && IsRefusal(e.result))
  }

  /** The client's cut of a shaped response, and when it is the response. */
  lemma ShapedIsCut(e: Emission, isHead: bool, includeBody: bool, rest: string)
    requires Shaped(e.result, includeBody) && (!e.result.sendFile ==> e.attachment == "")
    ensures var announced := if isHead then 0 else e.result.bodySize;
            var given := (if includeBody && !e.result.sendFile then e.result.bodySize else 0) + |e.attachment|;
            ResponseLength(isHead, e.Payload() + rest) == Some(|e.Payload()|) <==> announced == given
  {
    hide ToText, OnOwnLines, CompleteHeaderLength, BodyAnnounced;
    var r, body :| ShapedAs(e.result, includeBody, r, body);
    var head := ToText(r, false);
    HeadIsRead(r, body + e.attachment + rest);
    assert e.Payload() + rest == head + (body + e.attachment + rest);
    assert (e.Payload() + rest)[..|head|] == head;
  }

  lemma UpgradeIsCut(e: Emission, rest: string)
    requires IsUpgrade(e.result) && e.attachment == ""
    ensures ResponseLength(false, e.Payload() + rest) == Some(|e.Payload()|) && !e.result.sendFile
  {
    hide SwitchingProtocols, CompleteHeaderLength, BodyAnnounced, Base64.EncodeText;
    var key: seq<Base64.Byte> :| e.result == UpgradeResult(Base64.EncodeText(key));
    EncodedIsOneLine(key);
    var head := SwitchingProtocols(Base64.EncodeText(key));
    UpgradeIsRead(Base64.EncodeText(key), rest);
    assert e.Payload() + rest == head + rest;
    assert (e.Payload() + rest)[..|head|] == head;
  }

  /** A text with a body does not end where a head ends. */
  lemma NoHeadIsText(result: Result, statusCode: nat, text: string)
    requires Shaped(result, false) && '\n' !in text && text != ""
    ensures result != TextResult(statusCode, text, false, true)
  {
    hide OnOwnLines, ToText;
    var r, body :| ShapedAs(result, false, r, body);
    TextEnds(r);
    var refusal := SetBody(NewResponse(statusCode, text), text).(keepAlive := false);
    HeadAndBody(refusal, true);
    var all := TextResult(statusCode, text, false, true).response;
    assert all == ToText(refusal, false) + text;
    assert all[|all| - 1] == text[|text| - 1];
  }

  lemma NoHeadIsRefusal(result: Result)
    requires Shaped(result, false)
    ensures !IsRefusal(result)
  {
    hide Shaped, TextResult;
    NoHeadIsText(result, 400, "Bad Request");
    NoHeadIsText(result, 413, "Payload Too Large");
    NoHeadIsText(result, 503, "Service Unavailable");
  }

  lemma TextEnds(r: Response)
    ensures var text := ToText(r, false); text != "" && text[|text| - 1] == '\n'
  {
    hide RenderFields, Print, ConnectionOption;
  }

  lemma OnlyStreamsAttach(request: Request, result: Result, close: bool, content: Option<string>)
    ensures var e := EmissionOf(request, result, close, content);
            !e.result.sendFile ==> e.attachment == ""
  {
    hide TextResult;
    TextSendsNoFile(500, "Internal Server Error", result.keepAlive, true);
  }

  /** A response to a request that the pool took on. */
  lemma ServedIsCut(w: World, request: Request, built: nat, delivered: nat, rest: string)
    requires IsPossible(w)
    ensures var e := ServedAt(w, request, built, delivered);
            (ResponseLength(request.verb == "HEAD", e.Payload() + rest) == Some(|e.Payload()|)
             <==> IsWhole(request.verb == "HEAD", e))
  {
    hide BuildResponse, Shaped, IsUpgrade, ResponseLength, TransferOf, TextResult, IsRefusal, IsPossible, Closes;
    var e := ServedAt(w, request, built, delivered);
    var result := BuildResponse(w, built, request);
    var content := w.onDisk(delivered, result.filePath);
    BuiltIsShaped(w, built, request);
    OnlyStreamsAttach(request, result, Closes(request, result), content);
    if IsUpgrade(result) && request.verb == "GET" {
      UpgradeStreamsNothing(result);
      UpgradeIsCut(e, rest);
    } else if result.sendFile && content.None? {
      StreamIsNotForHead(result, request.verb != "HEAD");
      TextSendsNoFile(500, "Internal Server Error", result.keepAlive, true);
      TextIsShaped(500, "Internal Server Error", "Internal Server Error", result.keepAlive, true);
      ServedTextIsCut(e, result.keepAlive, rest);
    } else {
      ShapedIsCut(e, request.verb == "HEAD", request.verb != "HEAD", rest);
      if request.verb == "HEAD" {
        NoHeadIsRefusal(result);
        HeadStreamsNothing(result);
      }
    }
  }

  lemma UpgradeStreamsNothing(result: Result)
    requires IsUpgrade(result)
    ensures !result.sendFile
  {
    hide SwitchingProtocols, Base64.EncodeText;
  }

  lemma StreamIsNotForHead(result: Result, includeBody: bool)
    requires Shaped(result, includeBody) && result.sendFile
    ensures includeBody
  {
    hide ToText, OnOwnLines;
  }

  lemma HeadStreamsNothing(result: Result)
    requires Shaped(result, false)
    ensures !result.sendFile
  {
    hide ToText, OnOwnLines;
  }

  /** A short text answer to anything but HEAD. */
  lemma ServedTextIsCut(e: Emission, keepAlive: bool, rest: string)
    requires e.result == TextResult(500, "Internal Server Error", keepAlive, true) && e.attachment == ""
    ensures ResponseLength(false, e.Payload() + rest) == Some(|e.Payload()|) && IsWhole(false, e)
  {
    hide ToText, Shaped, ResponseLength;
    TextIsShaped(500, "Internal Server Error", "Internal Server Error", keepAlive, true);
    ShapedIsCut(e, false, true, rest);
  }

  /** A refusal with a text body, whatever it refuses. */
  lemma RefusalIsCut(e: Emission, isHead: bool, statusCode: nat, text: string, keepAlive: bool, rest: string)
    requires '\n' !in text && text != ""
    requires e.result == TextResult(statusCode, text, keepAlive, true) && e.attachment == ""
    ensures ResponseLength(isHead, e.Payload() + rest) == Some(|e.Payload()|) <==> !isHead
    ensures !e.result.sendFile
  {
    hide ToText, Shaped, ResponseLength;
    TextIsShaped(statusCode, text, text, keepAlive, true);
    ShapedIsCut(e, isHead, true, rest);
  }

  /** The client's cut gives a response the server sent iff that response is whole. */
  lemma PayloadIsCut(w: World, frame: Frame, isHead: bool, e: Emission, rest: string)
    requires IsPossible(w) && Answers(w, frame, e)
    requires frame.Good? ==> (isHead <==> frame.request.verb == "HEAD")
    ensures ResponseLength(isHead, e.Payload() + rest) == Some(|e.Payload()|) <==> IsWhole(isHead, e)
  {
    hide ServedAt, ResponseLength, TextResult, IsPossible, ToText;
    match frame
    case Reject400 => RefusalIsCut(e, isHead, 400, "Bad Request", false, rest);
    case Reject413 => RefusalIsCut(e, isHead, 413, "Payload Too Large", false, rest);
    case Good(request) =>
      if built, delivered :| e == ServedAt(w, request, built, delivered) {
        ServedIsCut(w, request, built, delivered, rest);
      } else if IsServed(request) {
        RefusalIsCut(e, isHead, 503, "Service Unavailable", false, rest);
      } else {
        UnservedIsNoHead(request);
        RefusalIsCut(e, isHead, 405, "Method Not Allowed", request.keepAlive, rest);
      }
  }

  lemma UnservedIsNoHead(request: Request)
    ensures !IsServed(request) ==> request.verb != "HEAD"
  {
    hide IsApiPath;
  }

  // ---- The whole wire ----

  function Pieces(emitted: seq<Emission>): seq<string> {
    if emitted == [] then [] else [emitted[0].Payload()] + Pieces(emitted[1..])
  }

  predicate AllWhole(flags: seq<bool>, emitted: seq<Emission>) {
    |emitted| <= |flags| && forall k :: 0 <= k < |emitted| ==> IsWhole(flags[k], emitted[k])
  }

  lemma {:induction false} PayloadsFirst(emitted: seq<Emission>)
    requires emitted != []
    ensures Payloads(emitted) == emitted[0].Payload() + Payloads(emitted[1..])
  {
    var front, last := emitted[..|emitted| - 1], emitted[|emitted| - 1];
    if front == [] {
      assert emitted == [last] && emitted[1..] == [];
      assert Payloads(emitted) == "" + last.Payload();
    } else {
      PayloadsFirst(front);
      assert emitted[1..] == front[1..] + [last];
      PayloadsNext(front[1..], last);
      Associate(emitted[0].Payload(), Payloads(front[1..]), last.Payload());
    }
  }

  lemma Associate(a: string, b: string, c: string)
    ensures (a + b) + c == a + (b + c)
  {
  }

  ghost predicate AllAnswers(w: World, framed: seq<Frame>, emitted: seq<Emission>)
    requires |emitted| <= |framed|
  {
    forall k :: 0 <= k < |emitted| ==> Answers(w, framed[k], emitted[k])
  }

  lemma AllWholeFirst(flags: seq<bool>, emitted: seq<Emission>)
    requires emitted != [] && |emitted| <= |flags|
    ensures AllWhole(flags, emitted) <==> IsWhole(flags[0], emitted[0]) && AllWhole(flags[1..], emitted[1..])
  {
    hide IsWhole;
    var more, rest := flags[1..], emitted[1..];
    assert forall k :: 0 <= k < |rest| ==> rest[k] == emitted[k + 1] && more[k] == flags[k + 1];
    assert forall k :: 0 < k < |emitted| ==> emitted[k] == rest[k - 1] && flags[k] == more[k - 1];
  }

  /** Cutting gives back all the responses iff each of them is whole. */
  lemma {:induction false} CutsExactly(w: World, flags: seq<bool>, framed: seq<Frame>, emitted: seq<Emission>)
    requires IsPossible(w) && |emitted| <= |framed| && FlagsFit(flags, framed) && AllAnswers(w, framed, emitted)
    ensures CutWire(flags, Payloads(emitted)) == Pieces(emitted) <==> AllWhole(flags, emitted)
    decreases |emitted|
  {
    hide IsPossible, Answers, IsWhole, ResponseLength, Payloads, AllWhole, FlagsFit;
    if emitted == [] {
      NothingToCut(flags);
    } else {
      var e, rest := emitted[0], emitted[1..];
      PayloadsFirst(emitted);
      FlagsFitFirst(flags, framed);
      AllWholeFirst(flags, emitted);
      PayloadIsCut(w, framed[0], flags[0], e, Payloads(rest));
      RestAnswers(w, framed, emitted);
      CutsExactly(w, flags[1..], framed[1..], rest);
      OneCut(e.Payload(), flags[0], flags[1..], Payloads(rest), Pieces(rest));
      assert [flags[0]] + flags[1..] == flags;
    }
  }

  lemma NothingToCut(flags: seq<bool>)
    ensures AllWhole(flags, []) && CutWire(flags, Payloads([])) == []
  {
  }

  lemma RestAnswers(w: World, framed: seq<Frame>, emitted: seq<Emission>)
    requires emitted != [] && |emitted| <= |framed| && AllAnswers(w, framed, emitted)
    ensures AllAnswers(w, framed[1..], emitted[1..])
  {
    hide Answers;
    forall k | 0 <= k < |emitted[1..]| ensures Answers(w, framed[1..][k], emitted[1..][k]) {
      assert Answers(w, framed[k + 1], emitted[k + 1]);
    }
  }

  lemma OneCut(payload: string, isHead: bool, heads: seq<bool>, wire: string, pieces: seq<string>)
    ensures CutWire([isHead] + heads, payload + wire) == [payload] + pieces
       <==> ResponseLength(isHead, payload + wire) == Some(|payload|) && CutWire(heads, wire) == pieces
  {
    hide ResponseLength;
    var whole := payload + wire;
    var length := ResponseLength(isHead, whole);
    assert ([isHead] + heads)[1..] == heads;
    if length.Some? && length.value <= |whole| {
      var first := whole[..length.value];
      assert CutWire([isHead] + heads, whole) == [first] + CutWire(heads, whole[length.value..]);
      assert ([first] + CutWire(heads, whole[length.value..]))[1..] == CutWire(heads, whole[length.value..]);
      assert ([payload] + pieces)[1..] == pieces && ([payload] + pieces)[0] == payload;
      if length.value == |payload| {
        assert first == payload && whole[length.value..] == wire;
      } else {
        assert |first| != |payload|;
      }
    }
  }

  /**
   * A client that knows which of the requests it has sent were HEAD cuts the responses of its
   * connection back out of the wire iff each is whole: no streamed file was shorter than
   * announced, and no HEAD was refused with the body of a 400, 413 or 503.
   */
  lemma ClientCutsWire(s: Server, id: nat)
    requires Reachable(s) && id in s.clients
    ensures var h := s.clients[id].history;
            var flags := HeadFlags(h.sent, s.maxBody);
            && |h.emitted| <= |flags|
            && (CutWire(flags, Payloads(h.emitted)) == Pieces(h.emitted) <==> AllWhole(flags, h.emitted))
  {
    hide Reachable, Answers, IsPossible, BatchFrames, Payloads, CutWire, HeadFlags, Pieces, AllWhole, Inv;
    ReachableIsSound(s);
    PossibleWorld(s);
    AnswersInOrder(s, id);
    var h := s.clients[id].history;
    SentFlagsFit(s, id);
    CutsExactly(s.world, HeadFlags(h.sent, s.maxBody), h.framed, h.emitted);
  }

  /**
   * The same for a client that has sent requests of its own, or part of the last of them, with
   * bodies only in POST: it needs to know nothing but the methods it wrote.
   */
  lemma MessagesAreCut(s: Server, id: nat, ms: seq<Message>)
    requires Reachable(s) && id in s.clients && AreMessages(ms) && s.clients[id].history.sent <= Stream(ms)
    ensures var h := s.clients[id].history;
            && |h.emitted| <= |ms| == |AreHead(ms)|
            && (CutWire(AreHead(ms), Payloads(h.emitted)) == Pieces(h.emitted) <==> AllWhole(AreHead(ms), h.emitted))
  {
    hide Reachable, Answers, IsPossible, BatchFrames, Payloads, CutWire, HeadFlags, Pieces, AllWhole, Inv, AreMessages, Stream;
    hide AreHead;
    ReachableIsSound(s);
    PossibleWorld(s);
    AnswersInOrder(s, id);
    var h := s.clients[id].history;
    SentFlagsFit(s, id);
    assert h.sent + Stream(ms)[|h.sent|..] == Stream(ms);
    HeadFlagsGrow(h.sent, Stream(ms)[|h.sent|..], s.maxBody);
    StreamFlags(ms, s.maxBody);
    FlagsFitLonger(HeadFlags(h.sent, s.maxBody), AreHead(ms), h.framed);
    AreHeadLength(ms);
    CutsExactly(s.world, AreHead(ms), h.framed, h.emitted);
  }

  /** The flags of what was sent fit the frames cut from what was received. */
  lemma SentFlagsFit(s: Server, id: nat)
    requires Reachable(s) && id in s.clients
    ensures var h := s.clients[id].history;
            FlagsFit(HeadFlags(h.sent, s.maxBody), h.framed)
  {
    hide Reachable, Answers, IsPossible, BatchFrames, HeadFlags, Payloads, LiveSound, OneJobEach, JobsFit, NotStranded;
    hide ThreadPools.PoolSound, TaskIds, NoCloseBefore;
    ReachableIsSound(s);
    var h := s.clients[id].history;
    assert SoundHistory(s.world, h, s.maxBody);
    FlagsFitFrames(h.received, s.maxBody);
    HeadFlagsGrow(h.received, h.sent[|h.received|..], s.maxBody);
    assert h.received + h.sent[|h.received|..] == h.sent;
  }

  /** A refused HEAD is such a response, whichever way it is refused: the client takes the body for the next head. */
  lemma RefusedHeadIsMiscut(w: World, frame: Frame, e: Emission, rest: string)
    requires IsPossible(w) && Answers(w, frame, e) && IsRefusal(e.result)
    requires frame.Good? ==> frame.request.verb == "HEAD"
    ensures ResponseLength(true, e.Payload() + rest) != Some(|e.Payload()|)
  {
    hide IsPossible, Answers, ResponseLength, IsRefusal;
    PayloadIsCut(w, frame, true, e, rest);
  }

  /** So is a short body: in a run of two short answers the client cannot cut the wire. */
  lemma ShortBodyIsMiscut(maxBody: nat, fd: int) returns (s: Server)
    ensures Reachable(s) && 1 in s.clients && s.maxBody == maxBody
    ensures var h := s.clients[1].history;
            && |h.emitted| == 2 && h.wire == Payloads(h.emitted)
            && CutWire(HeadFlags(h.sent, maxBody), h.wire) != Pieces(h.emitted)
  {
    hide Reachable, BuildResponse, ShortResult, ShortEmission, CutWire, Announces, IsRefusal, HeadFlags;
    s := ShortBodyKeepsOpen(maxBody, fd);
    ClientCutsWire(s, 1);
    var e := ShortEmission();
    ShortResultIs();
    assert [e, e][..1] == [e] && [e][..0] == [];
    assert e.result.response + "" == e.result.response;
    assert Payloads([e]) == "" + e.Payload() == e.Payload();
    assert forall flags: seq<bool> :: |flags| >= 2 ==> !IsWhole(flags[0], [e, e][0]);
    assert Payloads([e, e]) == e.Payload() + e.Payload();
  }
}
