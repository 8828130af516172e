/**
 * Where a request goes: the paths that belong to the routes and to the WebSocket endpoint, the
 * methods that are refused, and which answers come of it, told by what a client reads.
 */
module Routing {
  import opened Options
  import opened PercentCoding
  import opened HttpParser
  import opened Framing
  import opened SentMethods
  import opened HttpRoundTrip
  import opened HttpResponses
  import opened Responder
  import opened Connections
  import opened ConnectionSafety
  import opened Servers
  import opened ServerSafety
  import opened ServerSteps
  import opened ServerTheorems
  import opened Wires

  /** The path without its query and fragment. */
  ghost predicate IsRouteOf(route: string, path: string) {
    && route <= path && '?' !in route && '#' !in route
    && (|route| == |path| || path[|route|] == '?' || path[|route|] == '#')
  }

  lemma {:induction false} QueryStartIs(path: string, from: nat, n: nat)
    requires from <= n <= |path| && (n == |path| || path[n] == '?' || path[n] == '#')
    requires forall i :: from <= i < n ==> path[i] != '?' && path[i] != '#'
    ensures QueryStart(path, from) == n
    decreases n - from
  {
    if from < n {
      QueryStartIs(path, from + 1, n);
    }
  }

  /** The path up to its query is the only text of that kind. */
  lemma RouteIsExact(path: string, route: string)
    ensures RoutePath(path) == route <==> IsRouteOf(route, path)
  {
    StartIsFirst(path, 0);
    if IsRouteOf(route, path) {
      assert forall i :: 0 <= i < |route| ==> path[i] == route[i];
      QueryStartIs(path, 0, |route|);
    }
  }

  lemma {:induction false} StartIsFirst(path: string, from: nat)
    requires from <= |path|
    ensures var n := QueryStart(path, from);
            && (n == |path| || path[n] == '?' || path[n] == '#')
            && forall i :: from <= i < n ==> path[i] != '?' && path[i] != '#'
    decreases |path| - from
  {
    if from < |path| && path[from] != '?' && path[from] != '#' {
      StartIsFirst(path, from + 1);
    }
  }

  /** /api itself, and everything under it, whatever its query. */
  ghost predicate IsForApi(path: string) {
    exists route :: IsRouteOf(route, path) && (route == "/api" || "/api/" <= route)
  }

  ghost predicate IsForWebSocket(path: string) {
    IsRouteOf("/ws", path)
  }

  lemma ApiPathExact(path: string)
    ensures IsApiPath(path) <==> IsForApi(path)
  {
    hide RoutePath;
    RouteIsExact(path, RoutePath(path));
    var route := RoutePath(path);
    assert (|route| >= 5 && route[..5] == "/api/") <==> "/api/" <= route;
    if other :| IsRouteOf(other, path) && (other == "/api" || "/api/" <= other) {
      RouteIsExact(path, other);
    }
  }

  lemma WebSocketPathExact(path: string)
    ensures IsWebSocketEndpoint(path) <==> IsForWebSocket(path)
  {
    RouteIsExact(path, "/ws");
  }

  // ---- What the loop answers by itself ----

  lemma TextStatus(statusCode: nat, text: string, keepAlive: bool, includeBody: bool)
    requires '\n' !in text
    ensures var result := TextResult(statusCode, text, keepAlive, includeBody);
            && Announces(result.response, statusCode, result.bodySize, keepAlive) && result.bodySize == |text|
            && result.statusCode == statusCode && !result.closeAfterWrite
  {
    hide ToText, Announces;
    TextAnnounces(SetBody(NewResponse(statusCode, text), text).(keepAlive := keepAlive), includeBody);
  }

  /** What a client reads of an answer the loop gives by itself. */
  ghost predicate IsRefusalWith(e: Emission, statusCode: nat, close: bool) {
    e.close == close && e.attachment == "" && Announces(e.result.response, statusCode, e.result.bodySize, !close)
  }

  /**
   * A head the parser refuses gets 400, a head or body over its limit 413, and a request that is
   * neither for the routes nor GET nor HEAD gets 405; the first two close, the last as its request asked.
   */
  lemma RefusalsAreTold(w: World, frame: Frame, e: Emission)
    requires Answers(w, frame, e)
    ensures frame.Reject400? ==> IsRefusalWith(e, 400, true)
    ensures frame.Reject413? ==> IsRefusalWith(e, 413, true)
    ensures frame.Good? && !IsForApi(frame.request.path) && frame.request.verb != "GET" && frame.request.verb != "HEAD" ==>
              IsRefusalWith(e, 405, !frame.request.keepAlive)
  {
    hide Announces, TextResult, IsForApi, BuildResponse, Delivered, TransferOf, Closes, IsApiPath;
    TextStatus(400, "Bad Request", false, true);
    TextStatus(413, "Payload Too Large", false, true);
    if frame.Good? {
      ApiPathExact(frame.request.path);
      TextStatus(405, "Method Not Allowed", frame.request.keepAlive, true);
    }
  }

  /** Any other request is taken to the pool, and answered from there, or with 503 and a close where the pool is full. */
  lemma ServedAreServed(w: World, request: Request, e: Emission)
    requires Answers(w, Good(request), e)
    requires IsForApi(request.path) || request.verb == "GET" || request.verb == "HEAD"
    ensures ServedBy(w, request, e) || IsRefusalWith(e, 503, true)
  {
    hide Announces, TextResult, IsForApi, ServedBy, IsApiPath;
    ApiPathExact(request.path);
    TextStatus(503, "Service Unavailable", false, true);
  }

  /**
   * A client that has sent requests of its own and whose connection has nothing to write or to wait
   * for, with everything read: each request up to the first that is refused or closes has been framed
   * as it was written, and each frame has its answer, all of them on the wire.
   */
  lemma RequestsAreAnswered(s: Server, fd: int, ms: seq<Message>)
    requires Reachable(s) && fd in s.connections && HasNoResponse(s.connections[fd]) && AreMessages(ms)
    requires HistoryOf(s, fd).received == HistoryOf(s, fd).sent == Stream(ms)
    ensures var h := HistoryOf(s, fd);
            && FramesAre(h.framed, ms, s.maxBody) && |h.emitted| == |h.framed|
            && (forall k :: 0 <= k < |h.emitted| ==> Answers(s.world, h.framed[k], h.emitted[k]))
            && h.wire == Payloads(h.emitted)
  {
    hide Reachable, Answers, BatchFrames, FramesAre, Payloads, AreMessages, Stream, Inv;
    QuietClosingLosesOnlyUnread(s, fd);
    ReachableIsSound(s);
    LiveIsAt(s, fd);
    AnswersInOrder(s, s.connections[fd].id);
    StreamIsFramed(ms, s.maxBody);
  }

  // ---- What buildResponse makes ----

  /** An answer of a route: its own status, headers and body, the last for anything but HEAD. */
  lemma RoutesAnswer(w: World, at: nat, request: Request, name: string)
    requires IsPossible(w) && !w.throws(at, request) && IsForApi(request.path)
    ensures var routed, result := w.routed(at, request), BuildResponse(w, at, request);
            && Announces(result.response, routed.statusCode, |routed.body|, request.keepAlive)
            && HeaderValues(result.response, name) == Trimmed(FieldValues(HeadFields(routed.(keepAlive := request.keepAlive)), name))
            && (exists head :: result.response == head + (if request.verb == "HEAD" then "" else routed.body)
                            && CompleteHeaderLength(result.response) == Some(|head|))
            && !result.sendFile && !result.closeAfterWrite
  {
    hide ToText, Announces, IsForApi, RoutePath, IsPossible, CompleteHeaderLength, OnOwnLines, HeaderValues, HeadFields;
    var routed := w.routed(at, request);
    PossibleRoute(w, at, request);
    ApiPathExact(request.path);
    NotBoth(request.path);
    var r := routed.(keepAlive := request.keepAlive);
    WithKeepAlive(routed, request.keepAlive);
    TextAnnounces(r, request.verb != "HEAD");
    HeadersAreRead(r, request.verb != "HEAD", name);
    var head, body := ToText(r, false), if request.verb == "HEAD" then "" else routed.body;
    HeadAndBody(r, request.verb != "HEAD");
    HeadIsRead(r, body);
    assert ToText(r, request.verb != "HEAD") == head + body;
  }

  lemma PossibleRoute(w: World, at: nat, request: Request)
    requires IsPossible(w)
    ensures IsRouteAnswer(w.routed(at, request))
  {
    hide IsRouteAnswer;
  }

  lemma NotBoth(path: string)
    ensures !(IsApiPath(path) && IsWebSocketEndpoint(path))
  {
    hide RoutePath;
    assert |"/ws"| == 3 && |"/api"| == 4;
  }

  /** Where handling throws, the answer is a 500. */
  lemma ThrownIs500(w: World, at: nat, request: Request)
    requires w.throws(at, request)
    ensures var result := BuildResponse(w, at, request);
            result.statusCode == 500 && Announces(result.response, 500, result.bodySize, request.keepAlive) && !result.closeAfterWrite
  {
    hide TextResult, Announces;
    TextStatus(500, "Internal Server Error", request.keepAlive, request.verb != "HEAD");
  }
}
