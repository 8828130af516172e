/** Building the response of one request: WebSocket handshake, API routes, static files. */
module Responder {
  import opened Options
  import opened Text
  import opened Lists
  import opened Base64
  import opened PercentCoding
  import opened HttpParser
  import opened HttpResponses
  import opened StaticFiles

  function RoutePath(path: string): string { StripQueryAndFragment(path) }

  predicate IsApiPath(path: string) {
    var route := RoutePath(path);
    route == "/api" || (|route| >= 5 && route[..5] == "/api/")
  }

  predicate IsWebSocketEndpoint(path: string) { RoutePath(path) == "/ws" }

  /** The trimmed key of a well-formed upgrade request; its decoded form has sixteen bytes. */
  function HandshakeKey(request: Request): Option<string> {
    var headers := request.headers;
    if request.verb != "GET" || request.version != "HTTP/1.1" then None else
    if "upgrade" !in headers || ToLower(Trim(headers["upgrade"])) != "websocket" then None else
    if "connection" !in headers || !HasLowered(Elements(headers["connection"]), "upgrade") then None else
    if "sec-websocket-version" !in headers || Trim(headers["sec-websocket-version"]) != "13" then None else
    if "sec-websocket-key" !in headers then None else
    var key := Trim(headers["sec-websocket-key"]);
    var decoded := DecodeText(key);
    if decoded.None? || |decoded.value| != 16 then None else Some(key)
  }

  function SwitchingProtocols(accept: string): string {
    "HTTP/1.1 101 Switching Protocols\r\n"
    + "Upgrade: websocket\r\n"
    + "Connection: Upgrade\r\n"
    + "Sec-WebSocket-Accept: " + accept + "\r\n"
    + "\r\n"
  }

  function UpgradeResult(accept: string): Result {
    Result(SwitchingProtocols(accept), 101, 0, false, true, false, "", 0, 0, 0, "")
  }

  /** What a request asks of the static file handler. */
  datatype FileQuery = FileQuery(
    path: string, range: Option<string>, ifNoneMatch: Option<string>, acceptEncoding: Option<string>)

  function HeaderOf(request: Request, name: string): Option<string> {
    if name in request.headers then Some(request.headers[name]) else None
  }

  function QueryOf(request: Request): FileQuery {
    FileQuery(request.path, HeaderOf(request, "range"), HeaderOf(request, "if-none-match"),
              HeaderOf(request, "accept-encoding"))
  }

  /**
   * What lies outside this model, at each moment: the digest of a handshake key, the answer
   * of a route, the file result for a query, the requests whose handling throws, and what
   * opening a path finds.
   */
  datatype World = World(
    digest: string -> seq<Byte>,
    routed: (nat, Request) -> Response,
    file: (nat, FileQuery) -> FileResult,
    throws: (nat, Request) -> bool,
    onDisk: (nat, string) -> Option<string>)

  /** Routes set their body through setBody, and no field that toString writes itself. */
  predicate IsRouteAnswer(r: Response) {
    OnOwnLines(r) && r.contentLength == |r.body|
  }

  ghost predicate IsPossible(w: World) {
    && (forall key :: |w.digest(key)| == 20)
    && (forall at, request :: IsRouteAnswer(w.routed(at, request)))
    && (forall at, query :: OneLineFacts(w.file(at, query)))
  }

  /** Server::buildResponse, at some moment. */
  function BuildResponse(w: World, at: nat, request: Request): Result {
    var includeBody := request.verb != "HEAD";
    if w.throws(at, request) then TextResult(500, "Internal Server Error", request.keepAlive, includeBody)
    else if IsWebSocketEndpoint(request.path) then
      var key := HandshakeKey(request);
      if key.None? then TextResult(400, "Bad Request", false, includeBody).(closeAfterWrite := true)
      else UpgradeResult(EncodeText(w.digest(key.value)))
    else if IsApiPath(request.path) then
      MakeResult(w.routed(at, request).(keepAlive := request.keepAlive), request.keepAlive, includeBody)
    else StaticFileResponse(w.file(at, QueryOf(request)), request.keepAlive, includeBody)
  }

  /** Whether the server closes once this answer to this request is written. */
  predicate Closes(request: Request, result: Result) {
    result.closeAfterWrite || !request.keepAlive
  }

  /** An answer whose head says truthfully whether the connection closes; an upgrade says neither. */
  ghost predicate IsHonest(result: Result, close: bool) {
    && result.response != ""
    && (Announces(result.response, result.statusCode, result.bodySize, !close) || (close && exists accept :: result == UpgradeResult(accept)))
  }

  lemma TextIsHonest(statusCode: nat, text: string, keepAlive: bool, includeBody: bool)
    requires '\n' !in text
    ensures IsHonest(TextResult(statusCode, text, keepAlive, includeBody), !keepAlive)
  {
    hide ToText;
    BodyOnlyAnnounces(statusCode, text, text, keepAlive, includeBody);
  }

  /** For every non-upgrade answer the Connection header says close iff the server will close. */
  lemma BuildIsHonest(w: World, at: nat, request: Request)
    requires IsPossible(w)
    ensures IsHonest(BuildResponse(w, at, request), Closes(request, BuildResponse(w, at, request)))
  {
    hide ToText, HandshakeKey, IsWebSocketEndpoint, IsApiPath, StaticFileResponse, EncodeText, OnOwnLines, OneLineFacts;
    hide Announces, SwitchingProtocols, IsHonest, QueryOf;
    var includeBody := request.verb != "HEAD";
    if w.throws(at, request) {
      TextIsHonest(500, "Internal Server Error", request.keepAlive, includeBody);
    } else if IsWebSocketEndpoint(request.path) {
      if HandshakeKey(request).None? {
        TextIsHonest(400, "Bad Request", false, includeBody);
        WithClose(TextResult(400, "Bad Request", false, includeBody));
      } else {
        UpgradeIsHonest(EncodeText(w.digest(HandshakeKey(request).value)));
      }
    } else if IsApiPath(request.path) {
      var routed := w.routed(at, request);
      assert IsRouteAnswer(routed);
      WithKeepAlive(routed, request.keepAlive);
      TextAnnounces(routed.(keepAlive := request.keepAlive), includeBody);
      AnnouncingIsHonest(BuildResponse(w, at, request), request.keepAlive);
    } else {
      StaticAnnounces(w.file(at, QueryOf(request)), request.keepAlive, includeBody);
      AnnouncingIsHonest(BuildResponse(w, at, request), request.keepAlive);
    }
  }

  lemma WithClose(result: Result)
    requires IsHonest(result, true) && result.closeAfterWrite == false
    ensures IsHonest(result.(closeAfterWrite := true), true)
  {
    hide Announces;
  }

  lemma UpgradeIsHonest(accept: string)
    ensures IsHonest(UpgradeResult(accept), true)
  {
    hide Announces;
  }

  lemma WithKeepAlive(r: Response, keepAlive: bool)
    requires OnOwnLines(r)
    ensures OnOwnLines(r.(keepAlive := keepAlive))
  {
  }

  lemma AnnouncingIsHonest(result: Result, keepAlive: bool)
    requires Announces(result.response, result.statusCode, result.bodySize, keepAlive)
    ensures IsHonest(result, !keepAlive)
  {
  }
}
