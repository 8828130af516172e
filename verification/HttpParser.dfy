/** The request parser: request line, header fields, Content-Length and persistence. */
module HttpParser {
  import opened Options
  import opened Text
  import opened Decimal
  import opened Lists

  datatype Request = Request(
    verb: string,
    path: string,
    version: string,
    headers: map<string, string>,
    hasContentLength: bool,
    contentLength: nat,
    body: string,
    keepAlive: bool)

  datatype RequestLine = RequestLine(verb: string, target: string, version: string)

  /** Bound of the request line and, separately, of all header lines together. */
  const MAX_LENGTH: nat := 8192

  predicate IsTokenCharacter(c: char) {
    IsAlnum(c) || c in "!#$%&'*+-.^_`|~"
  }

  predicate IsToken(s: string) {
    s != "" && forall i :: 0 <= i < |s| ==> IsTokenCharacter(s[i])
  }

  function StripCr(line: string): string {
    if line != "" && line[|line| - 1] == '\r' then line[..|line| - 1] else line
  }

  /** Where the line starting at `pos` ends: its line feed, or the end of the text. */
  function LineEnd(raw: string, pos: nat): (r: nat)
    requires pos <= |raw|
    ensures pos <= r <= |raw|
  {
    var feed := IndexOf(raw, '\n', pos);
    if feed.None? then |raw| else feed.value
  }

  /** Where reading continues after that line. */
  function LineNext(raw: string, pos: nat): (r: nat)
    requires pos < |raw|
    ensures pos < r <= |raw|
  {
    var end := LineEnd(raw, pos);
    if end == |raw| then |raw| else end + 1
  }

  function SplitRequestLine(line: string): Option<RequestLine> {
    var first := IndexOf(line, ' ', 0);
    if first.None? || first.value == 0 then None else
    var second := IndexOf(line, ' ', first.value + 1);
    if second.None? || second.value == first.value + 1 then None else
    if IndexOf(line, ' ', second.value + 1).Some? then None else
    Some(RequestLine(line[..first.value], line[first.value + 1..second.value], line[second.value + 1..]))
  }

  predicate Acceptable(rl: RequestLine) {
    && IsToken(rl.verb)
    && rl.target != "" && rl.target[0] == '/'
    && (rl.version == "HTTP/1.0" || rl.version == "HTTP/1.1")
  }

  /** The grammar of a request line: method, one blank, target, one blank, version. */
  ghost predicate IsRequestLine(line: string, rl: RequestLine) {
    && line == rl.verb + " " + rl.target + " " + rl.version
    && Acceptable(rl)
    && ' ' !in rl.target
  }

  predicate IsFieldLine(line: string) {
    var separator := IndexOf(line, ':', 0);
    separator.Some? && separator.value != 0 && IsToken(line[..separator.value])
  }

  function FieldName(line: string): string
    requires IsFieldLine(line)
  {
    ToLower(line[..IndexOf(line, ':', 0).value])
  }

  function FieldValue(line: string): string
    requires IsFieldLine(line)
  {
    Trim(line[IndexOf(line, ':', 0).value + 1..])
  }

  function AddHeader(headers: map<string, string>, name: string, value: string): map<string, string> {
    if name in headers then headers[name := headers[name] + ", " + value] else headers[name := value]
  }

  /** The header loop from position `pos`, with `length` header bytes read so far. */
  function ReadHeaders(raw: string, pos: nat, length: nat, headers: map<string, string>, limit: nat)
      : Option<map<string, string>>
    requires pos <= |raw|
    decreases |raw| - pos
  {
    if pos == |raw| then Some(headers) else
    var end := LineEnd(raw, pos);
    var length' := length + (end - pos) + 1;
    if length' > limit then None else
    var line := StripCr(raw[pos..end]);
    if line == "" then Some(headers) else
    if !IsFieldLine(line) then None else
    ReadHeaders(raw, LineNext(raw, pos), length', AddHeader(headers, FieldName(line), FieldValue(line)), limit)
  }

  predicate ConnectionHas(headers: map<string, string>, token: string) {
    "connection" in headers && HasLowered(Elements(headers["connection"]), token)
  }

  predicate ShouldKeepAlive(version: string, headers: map<string, string>) {
    !ConnectionHas(headers, "close") && (version == "HTTP/1.1" || ConnectionHas(headers, "keep-alive"))
  }

  function Finish(rl: RequestLine, headers: map<string, string>): Option<Request> {
    var keepAlive := ShouldKeepAlive(rl.version, headers);
    if "content-length" !in headers then
      Some(Request(rl.verb, rl.target, rl.version, headers, false, 0, "", keepAlive))
    else
      var length := ParseWord(headers["content-length"]);
      if length.None? then None
      else Some(Request(rl.verb, rl.target, rl.version, headers, true, length.value, "", keepAlive))
  }

  function ParseWithin(raw: string, limit: nat): Option<Request> {
    if raw == "" then None else
    var end := LineEnd(raw, 0);
    if end > limit then None else
    var rl := SplitRequestLine(StripCr(raw[..end]));
    if rl.None? || !Acceptable(rl.value) then None else
    var headers := ReadHeaders(raw, LineNext(raw, 0), 0, map[], limit);
    if headers.None? then None else Finish(rl.value, headers.value)
  }

  /** What HttpParser::parse computes from the raw bytes of one request head. */
  function ParseRequest(raw: string): Option<Request> {
    ParseWithin(raw, MAX_LENGTH)
  }

  method ShouldKeepAliveNow(version: string, headers: map<string, string>) returns (keepAlive: bool)
    ensures keepAlive == ShouldKeepAlive(version, headers)
  {
    var requestedClose, requestedKeepAlive := false, false;
    if "connection" in headers {
      requestedClose := HasElement(headers["connection"], "close");
      requestedKeepAlive := HasElement(headers["connection"], "keep-alive");
    }
    if requestedClose {
      return false;
    }
    if version == "HTTP/1.1" {
      return true;
    }
    return requestedKeepAlive;
  }

  /** HttpParser::parse: on failure the caller's request is left as it was. */
  method Parse(raw: string, unparsed: Request) returns (ok: bool, request: Request)
    ensures ok == ParseRequest(raw).Some?
    ensures request == if ok then ParseRequest(raw).value else unparsed
  {
    hide SplitRequestLine, Acceptable, IsFieldLine, FieldName, FieldValue, AddHeader, StripCr;
    hide LineEnd, LineNext, ShouldKeepAlive, ParseWord, Value;
    request := unparsed;
    if raw == "" {
      return false, request;
    }
    var end := LineEnd(raw, 0);
    if end > MAX_LENGTH {
      return false, request;
    }
    var rl := SplitRequestLine(StripCr(raw[..end]));
    if rl.None? || !Acceptable(rl.value) {
      return false, request;
    }
    var headers: map<string, string> := map[];
    var headerLength: nat := 0;
    var pos := LineNext(raw, 0);
    ghost var whole := ReadHeaders(raw, pos, 0, map[], MAX_LENGTH);
    while pos < |raw|
      invariant pos <= |raw|
      invariant whole == ReadHeaders(raw, pos, headerLength, headers, MAX_LENGTH)
      decreases |raw| - pos
    {
      end := LineEnd(raw, pos);
      headerLength := headerLength + (end - pos) + 1;
      if headerLength > MAX_LENGTH {
        return false, request;
      }
      var line := StripCr(raw[pos..end]);
      if line == "" {
        break;
      }
      if !IsFieldLine(line) {
        return false, request;
      }
      headers := AddHeader(headers, FieldName(line), FieldValue(line));
      pos := LineNext(raw, pos);
    }
    assert whole == Some(headers);
    var contentLength: nat := 0;
    if "content-length" in headers {
      var number := ParseUnsigned(headers["content-length"]);
      if number.None? {
        return false, request;
      }
      contentLength := number.value;
    }
    var keepAlive := ShouldKeepAliveNow(rl.value.version, headers);
    request := Request(rl.value.verb, rl.value.target, rl.value.version, headers,
                       "content-length" in headers, contentLength, "", keepAlive);
    return true, request;
  }
}
