/** Rendering a request head in the canonical CRLF form, then framing and parsing it back. */
module HttpRoundTrip {
  import opened Options
  import opened Text
  import opened Decimal
  import opened Lists
  import opened HttpParser
  import opened HttpGrammar
  import opened Framing

  datatype Field = Field(name: string, value: string)

  predicate NoLineBreak(s: string) { '\r' !in s && '\n' !in s }

  predicate IsField(f: Field) {
    IsToken(f.name) && NoLineBreak(f.value) && IsCore(f.value)
  }

  predicate IsHead(rl: RequestLine, fields: seq<Field>) {
    && Acceptable(rl) && ' ' !in rl.target && NoLineBreak(rl.target)
    && forall i :: 0 <= i < |fields| ==> IsField(fields[i])
  }

  function FieldText(f: Field): string { f.name + ": " + f.value }

  function RenderFields(fields: seq<Field>): string {
    if fields == [] then "" else FieldText(fields[0]) + "\r\n" + RenderFields(fields[1..])
  }

  function LineText(rl: RequestLine): string { rl.verb + " " + rl.target + " " + rl.version }

  function Render(rl: RequestLine, fields: seq<Field>): string {
    LineText(rl) + "\r\n" + RenderFields(fields) + "\r\n"
  }

  function Texts(fields: seq<Field>): seq<string> {
    if fields == [] then [] else [FieldText(fields[0])] + Texts(fields[1..])
  }

  lemma TokenNoLineBreak(s: string)
    requires IsToken(s)
    ensures NoLineBreak(s)
  {
    TokenHasNo(s, '\r');
    TokenHasNo(s, '\n');
  }

  lemma FieldTextIs(f: Field)
    requires IsField(f)
    ensures NoLineBreak(FieldText(f)) && FieldText(f) != "" && IsFieldLine(FieldText(f))
    ensures FieldName(FieldText(f)) == ToLower(f.name) && FieldValue(FieldText(f)) == f.value
  {
    hide IsToken, IsFieldLine, FieldName, FieldValue, Trim, IsCore;
    TokenNoLineBreak(f.name);
    FieldLineOf(f.name, " " + f.value);
    assert FieldText(f) == f.name + ":" + (" " + f.value);
    TrimOf(" ", f.value, "");
    assert " " + f.value + "" == " " + f.value;
  }

  /** A line that ends in CRLF is read back as it was written. */
  lemma LineAt(prefix: string, line: string, rest: string)
    requires '\n' !in line
    ensures var raw := prefix + line + "\r\n" + rest;
            && LineEnd(raw, |prefix|) == |prefix| + |line| + 1
            && LineNext(raw, |prefix|) == |prefix| + |line| + 2
            && StripCr(raw[|prefix|..|prefix| + |line| + 1]) == line
  {
    hide IndexOf;
    var raw := prefix + line + "\r\n" + rest;
    assert raw == prefix + (line + "\r") + ['\n'] + rest;
    FirstBetween(prefix, line + "\r", '\n', rest);
    assert raw[|prefix|..|prefix| + |line| + 1] == line + "\r";
  }

  /** Fields that stay on one line each, whatever else their values hold. */
  predicate OneLineEach(fields: seq<Field>) {
    forall i :: 0 <= i < |fields| ==> IsToken(fields[i].name) && '\n' !in fields[i].value
  }

  lemma FieldTextOneLine(f: Field)
    requires IsToken(f.name) && '\n' !in f.value
    ensures '\n' !in FieldText(f) && FieldText(f) != "" && IsFieldLine(FieldText(f))
    ensures FieldName(FieldText(f)) == ToLower(f.name) && FieldValue(FieldText(f)) == Trim(f.value)
  {
    hide IsToken, IsFieldLine, FieldName, FieldValue, Trim;
    TokenNoLineBreak(f.name);
    FieldLineOf(f.name, " " + f.value);
    assert FieldText(f) == f.name + ":" + (" " + f.value);
    TrimBlankFront(f.value);
  }

  /** The header lines of a rendered head are the texts of its fields, whatever follows the blank line. */
  lemma {:induction false} FieldsAt(prefix: string, fields: seq<Field>, x: string)
    requires OneLineEach(fields)
    ensures var raw := prefix + RenderFields(fields) + "\r\n" + x;
            && FieldLines(raw, |prefix|) == Texts(fields)
            && HeaderBytes(raw, |prefix|) == |RenderFields(fields)| + 2
    decreases |fields|
  {
    hide LineEnd, LineNext, StripCr, IsFieldLine, FieldName, FieldValue;
    var raw := prefix + RenderFields(fields) + "\r\n" + x;
    if fields == [] {
      LineAt(prefix, "", x);
      assert raw == prefix + "" + "\r\n" + x;
    } else {
      var line, rest := FieldText(fields[0]), RenderFields(fields[1..]) + "\r\n" + x;
      FieldTextOneLine(fields[0]);
      LineAt(prefix, line, rest);
      assert raw == prefix + line + "\r\n" + rest;
      FieldsAt(prefix + line + "\r\n", fields[1..], x);
      assert raw == (prefix + line + "\r\n") + RenderFields(fields[1..]) + "\r\n" + x;
    }
  }

  lemma {:induction false} TextsAreFieldLines(fields: seq<Field>)
    requires OneLineEach(fields)
    ensures AllFieldLines(Texts(fields))
  {
    hide IsFieldLine, FieldName, FieldValue;
    if fields != [] {
      FieldTextOneLine(fields[0]);
      TextsAreFieldLines(fields[1..]);
      AllFieldLinesCons(FieldText(fields[0]), Texts(fields[1..]));
    }
  }

  /** A line feed follows a carriage return, and a carriage return never follows a line feed. */
  ghost predicate BreakOk(t: string, j: nat)
    requires j < |t|
  {
    && (t[j] == '\n' ==> j >= 1 && t[j - 1] == '\r')
    && (t[j] == '\r' ==> j >= 1 && t[j - 1] != '\n')
  }

  ghost predicate NoBlankLine(t: string) {
    forall j: nat :: j < |t| ==> BreakOk(t, j)
  }

  lemma NoBlankLineAppend(t: string, line: string)
    requires NoBlankLine(t) && '\n' !in line && line != "" && line[0] != '\r'
    ensures NoBlankLine(t + line + "\r\n")
  {
    var all := t + line + "\r\n";
    var n := |t| + |line|;
    forall j | |t| <= j < n ensures all[j] == line[j - |t|] && all[j] != '\n' {
    }
    assert all[n] == '\r' && all[n + 1] == '\n' && all[n - 1] != '\n';
    forall j: nat | j < |all| ensures BreakOk(all, j) {
      if j < |t| {
        assert BreakOk(t, j);
        assert all[j] == t[j] && (j >= 1 ==> all[j - 1] == t[j - 1]);
      }
    }
  }

  lemma {:induction false} NoBlankLineFields(t: string, fields: seq<Field>)
    requires NoBlankLine(t) && OneLineEach(fields)
    ensures NoBlankLine(t + RenderFields(fields))
    decreases |fields|
  {
    hide NoBlankLine, IsToken;
    if fields == [] {
      assert t + "" == t;
    } else {
      FieldTextStarts(fields[0]);
      var t' := t + FieldText(fields[0]) + "\r\n";
      NoBlankLineAppend(t, FieldText(fields[0]));
      NoBlankLineFields(t', fields[1..]);
      assert t' + RenderFields(fields[1..]) == t + RenderFields(fields);
    }
  }

  lemma FieldTextStarts(f: Field)
    requires IsToken(f.name) && '\n' !in f.value
    ensures '\n' !in FieldText(f) && FieldText(f) != "" && FieldText(f)[0] != '\r'
  {
    hide IsFieldLine, FieldName, FieldValue, Trim;
    FieldTextOneLine(f);
    assert FieldText(f)[0] == f.name[0] && IsTokenCharacter(f.name[0]);
  }

  lemma MatchCrlf(s: string, j: nat)
    ensures MatchAt(s, "\r\n\r\n", j)
       <==> j + 4 <= |s| && s[j] == '\r' && s[j + 1] == '\n' && s[j + 2] == '\r' && s[j + 3] == '\n'
  {
    if j + 4 <= |s| {
      var m := s[j..j + 4];
      assert m[0] == s[j] && m[1] == s[j + 1] && m[2] == s[j + 2] && m[3] == s[j + 3];
    }
  }

  lemma MatchLf(s: string, j: nat)
    ensures MatchAt(s, "\n\n", j) <==> j + 2 <= |s| && s[j] == '\n' && s[j + 1] == '\n'
  {
    if j + 2 <= |s| {
      var m := s[j..j + 2];
      assert m[0] == s[j] && m[1] == s[j + 1];
    }
  }

  /** Text without a blank line, closed by one: the framer finds exactly its end, whatever follows. */
  lemma BlankLineEnds(t: string, x: string)
    requires NoBlankLine(t) && |t| >= 2 && t[|t| - 2] == '\r' && t[|t| - 1] == '\n'
    ensures CompleteHeaderLength(t + "\r\n" + x) == Some(|t| + 2)
  {
    hide Find;
    var s := t + "\r\n" + x;
    assert forall j :: 0 <= j < |t| ==> s[j] == t[j];
    assert s[|t|] == '\r' && s[|t| + 1] == '\n';
    assert s[|t| - 2..|t| + 2] == "\r\n\r\n";
    forall j: nat | j < |t| - 2 ensures !MatchAt(s, "\r\n\r\n", j) {
      MatchCrlf(s, j);
      assert BreakOk(t, j + 2);
    }
    forall j: nat | j <= |t| ensures !MatchAt(s, "\n\n", j) {
      MatchLf(s, j);
      assert j + 1 < |t| ==> BreakOk(t, j + 1);
    }
    assert MatchAt(s, "\r\n\r\n", |t| - 2);
  }

  lemma LineTextIs(rl: RequestLine)
    requires Acceptable(rl) && ' ' !in rl.target && NoLineBreak(rl.target)
    ensures LineText(rl) != "" && NoLineBreak(LineText(rl)) && IsRequestLine(LineText(rl), rl)
  {
    hide IsToken;
    TokenNoLineBreak(rl.verb);
  }

  /** A first line and fields on their own lines, closed by a blank line: the framer finds exactly that end. */
  lemma LinesEnd(first: string, fields: seq<Field>, x: string)
    requires '\n' !in first && first != "" && first[0] != '\r' && OneLineEach(fields)
    ensures var head := first + "\r\n" + RenderFields(fields) + "\r\n";
            CompleteHeaderLength(head + x) == Some(|head|)
  {
    hide CompleteHeaderLength, NoBlankLine, IsToken, RenderFields;
    var t := first + "\r\n";
    EmptyHasNoBlankLine();
    NoBlankLineAppend("", first);
    assert "" + first + "\r\n" == t;
    NoBlankLineFields(t, fields);
    RenderEndsLine(t, fields);
    BlankLineEnds(t + RenderFields(fields), x);
  }

  /** Framing a canonical head followed by any bytes cuts exactly that head. */
  lemma RenderedIsFramed(rl: RequestLine, fields: seq<Field>, x: string)
    requires IsHead(rl, fields)
    ensures CompleteHeaderLength(Render(rl, fields) + x) == Some(|Render(rl, fields)|)
  {
    hide CompleteHeaderLength, IsField, LineText, RenderFields;
    LineTextIs(rl);
    HeadIsOneLineEach(rl, fields);
    LinesEnd(LineText(rl), fields, x);
  }

  lemma EmptyHasNoBlankLine()
    ensures NoBlankLine("")
  {
  }

  lemma {:induction false} RenderEndsLine(t: string, fields: seq<Field>)
    requires |t| >= 2 && t[|t| - 2] == '\r' && t[|t| - 1] == '\n'
    ensures var all := t + RenderFields(fields); |all| >= 2 && all[|all| - 2] == '\r' && all[|all| - 1] == '\n'
    decreases |fields|
  {
    if fields == [] {
      assert t + "" == t;
    } else {
      var t' := t + FieldText(fields[0]) + "\r\n";
      RenderEndsLine(t', fields[1..]);
      assert t' + RenderFields(fields[1..]) == t + RenderFields(fields);
    }
  }

  lemma HeadIsOneLineEach(rl: RequestLine, fields: seq<Field>)
    requires IsHead(rl, fields)
    ensures OneLineEach(fields)
  {
    hide IsToken, IsCore;
  }

  /** The values of the fields whose name, in lower case, is `name`, in order. */
  function FieldValues(fields: seq<Field>, name: string): seq<string> {
    if fields == [] then []
    else (if ToLower(fields[0].name) == name then [fields[0].value] else []) + FieldValues(fields[1..], name)
  }

  lemma {:induction false} ValuesOfCons(line: string, rest: seq<string>, name: string)
    requires IsFieldLine(line) && AllFieldLines(rest)
    ensures AllFieldLines([line] + rest)
    ensures ValuesOf([line] + rest, name)
         == (if FieldName(line) == name then [FieldValue(line)] else []) + ValuesOf(rest, name)
    decreases |rest|
  {
    hide IsFieldLine, FieldName, FieldValue;
    AllFieldLinesCons(line, rest);
    var all := [line] + rest;
    if rest == [] {
      assert all[..0] == [] && ValuesOf([], name) == [];
    } else {
      var front := rest[..|rest| - 1];
      assert all[..|all| - 1] == [line] + front && all[|all| - 1] == rest[|rest| - 1];
      ValuesOfCons(line, front, name);
    }
  }

  /** Reading the rendered lines back gives the values that were written. */
  lemma {:induction false} TextsGiveValues(fields: seq<Field>, name: string)
    requires forall i :: 0 <= i < |fields| ==> IsField(fields[i])
    ensures AllFieldLines(Texts(fields)) && ValuesOf(Texts(fields), name) == FieldValues(fields, name)
  {
    hide IsField, IsFieldLine, FieldName, FieldValue;
    if fields != [] {
      FieldTextIs(fields[0]);
      TextsGiveValues(fields[1..], name);
      ValuesOfCons(FieldText(fields[0]), Texts(fields[1..]), name);
    }
  }

  /** No Content-Length field, or exactly one, and that a decimal word. */
  predicate LengthFieldOk(fields: seq<Field>) {
    var values := FieldValues(fields, "content-length");
    |values| == 0 || (|values| == 1 && ParseWord(values[0]).Some?)
  }

  /** The close-first rule over the options of all Connection fields. */
  predicate KeepsOpen(version: string, fields: seq<Field>) {
    var options := AllElements(FieldValues(fields, "connection"));
    !HasLowered(options, "close") && (version == "HTTP/1.1" || HasLowered(options, "keep-alive"))
  }

  /** A request that says what the request line and the fields say. */
  ghost predicate Says(request: Request, rl: RequestLine, fields: seq<Field>) {
    var lengths := FieldValues(fields, "content-length");
    && RequestLine(request.verb, request.path, request.version) == rl
    && (forall name :: EntryIs(request.headers, FieldValues(fields, name), name))
    && (request.hasContentLength <==> |lengths| == 1)
    && (request.hasContentLength ==> ParseWord(lengths[0]) == Some(request.contentLength))
    && (!request.hasContentLength ==> request.contentLength == 0)
    && (request.keepAlive <==> KeepsOpen(rl.version, fields))
    && request.body == ""
  }

  /** Within the two size limits a canonical head parses back to its own parts and field values. */
  lemma RenderedIsParsed(rl: RequestLine, fields: seq<Field>)
    requires IsHead(rl, fields)
    ensures ParseRequest(Render(rl, fields)).Some?
       <==> |LineText(rl)| < MAX_LENGTH && |RenderFields(fields)| + 2 <= MAX_LENGTH && LengthFieldOk(fields)
    ensures ParseRequest(Render(rl, fields)).Some? ==> Says(ParseRequest(Render(rl, fields)).value, rl, fields)
  {
    hide IsField, ParseRequest, Acceptable, Represents, CloseFirst, FieldValues, LineText, RenderFields, Render, Texts;
    hide IsFieldLine, AllElements, HasLowered, ParseWord, EntryIs;
    LinesRead(rl, fields);
    TextsGiveValues(fields, "content-length");
    if ParseRequest(Render(rl, fields)).Some? {
      var request := ParseRequest(Render(rl, fields)).value;
      LinesMeanFields(request, rl, fields);
    }
  }

  /** What the parser makes of a rendered head, in terms of its lines. */
  lemma LinesRead(rl: RequestLine, fields: seq<Field>)
    requires IsHead(rl, fields)
    ensures AllFieldLines(Texts(fields))
    ensures ParseRequest(Render(rl, fields)).Some?
       <==> |LineText(rl)| < MAX_LENGTH && |RenderFields(fields)| + 2 <= MAX_LENGTH && ContentLengthOk(Texts(fields))
    ensures ParseRequest(Render(rl, fields)).Some? ==>
              var request := ParseRequest(Render(rl, fields)).value;
              RequestLine(request.verb, request.path, request.version) == rl && SaysLines(request, Texts(fields))
  {
    hide LineEnd, LineNext, StripCr, IsField, ParseRequest, Acceptable, Represents, CloseFirst, ContentLengthOk;
    hide FieldLines, HeaderBytes, IsFieldLine, SplitRequestLine, Texts, RenderFields, LineText, ParseWord, ValuesOf;
    var raw := Render(rl, fields);
    var rest := RenderFields(fields) + "\r\n";
    assert raw == "" + LineText(rl) + "\r\n" + rest;
    LineTextIs(rl);
    LineAt("", LineText(rl), rest);
    assert raw[..|LineText(rl)| + 1] == raw[0..0 + |LineText(rl)| + 1];
    HeadIsOneLineEach(rl, fields);
    FieldsAt(LineText(rl) + "\r\n", fields, "");
    assert raw == LineText(rl) + "\r\n" + RenderFields(fields) + "\r\n" + "";
    TextsAreFieldLines(fields);
    ParseAccepts(raw);
    if ParseRequest(raw).Some? {
      ParseDescribes(raw);
      var request := ParseRequest(raw).value;
      RequestLineExact(LineText(rl), rl);
      RequestLineExact(LineText(rl), RequestLine(request.verb, request.path, request.version));
    }
  }

  /** The part of Describes that speaks of the header lines. */
  ghost predicate SaysLines(request: Request, lines: seq<string>)
    requires AllFieldLines(lines)
  {
    var lengths := ValuesOf(lines, "content-length");
    && Represents(request.headers, lines)
    && (request.hasContentLength <==> |lengths| == 1)
    && (request.hasContentLength ==> ParseWord(lengths[0]) == Some(request.contentLength))
    && (!request.hasContentLength ==> request.contentLength == 0)
    && (request.keepAlive <==> CloseFirst(request.version, lines))
    && request.body == ""
  }

  lemma LinesMeanFields(request: Request, rl: RequestLine, fields: seq<Field>)
    requires IsHead(rl, fields) && AllFieldLines(Texts(fields)) && SaysLines(request, Texts(fields))
    requires RequestLine(request.verb, request.path, request.version) == rl
    ensures Says(request, rl, fields)
  {
    hide IsField, Acceptable, FieldValues, ValuesOf, Texts, AllElements, HasLowered, ParseWord, EntryIs, IsFieldLine;
    TextsGiveValues(fields, "content-length");
    TextsGiveValues(fields, "connection");
    forall name ensures EntryIs(request.headers, FieldValues(fields, name), name) {
      TextsGiveValues(fields, name);
      assert RepresentsName(request.headers, Texts(fields), name);
    }
  }

  /** Within the framer's limit the parser's own limits decide nothing. */
  lemma ParserLimitsUnreachable(raw: string, limit: nat)
    requires |raw| <= MAX_LENGTH <= limit
    ensures ParseWithin(raw, limit) == ParseRequest(raw)
  {
    if raw != "" {
      LimitsUnreachableFrom(raw, LineNext(raw, 0), 0, map[], limit);
    }
  }

  lemma {:induction false} LimitsUnreachableFrom(raw: string, pos: nat, length: nat, headers: map<string, string>,
                                                 limit: nat)
    requires pos <= |raw| && 1 <= pos && length + (|raw| - pos) + 1 <= MAX_LENGTH <= limit
    ensures ReadHeaders(raw, pos, length, headers, limit) == ReadHeaders(raw, pos, length, headers, MAX_LENGTH)
    decreases |raw| - pos
  {
    hide StripCr, IsFieldLine, FieldName, FieldValue, AddHeader;
    if pos < |raw| {
      var end := LineEnd(raw, pos);
      var line := StripCr(raw[pos..end]);
      if line != "" && IsFieldLine(line) && end < |raw| {
        LimitsUnreachableFrom(raw, end + 1, length + (end - pos) + 1,
                              AddHeader(headers, FieldName(line), FieldValue(line)), limit);
      }
    }
  }

  /** The first frame of a stream for a parser with other limits. */
  function FirstFrameWithin(stream: string, maxBody: nat, limit: nat): (r: Outcome)
    ensures r.Complete? ==> 0 < r.length <= |stream|
  {
    var head := CompleteHeaderLength(stream);
    if HeaderTooLarge(stream) then HeaderOverflow else
    if head.None? then NeedMore else
    var parsed := ParseWithin(stream[..head.value], limit);
    if parsed.None? then Malformed else
    if BodyLength(parsed.value) > maxBody then BodyOverflow else
    var length := head.value + BodyLength(parsed.value);
    if |stream| < length then NeedMore
    else Complete(parsed.value.(body := stream[head.value..length]), length)
  }

  /** The requests of a whole stream for a parser with other limits. */
  function BatchFramesWithin(stream: string, maxBody: nat, limit: nat): seq<Frame>
    decreases |stream|
  {
    match FirstFrameWithin(stream, maxBody, limit)
    case NeedMore => []
    case HeaderOverflow => [Reject413]
    case Malformed => [Reject400]
    case BodyOverflow => [Reject413]
    case Complete(request, length) =>
      [Good(request)] + if request.keepAlive then BatchFramesWithin(stream[length..], maxBody, limit) else []
  }

  lemma FirstFrameIgnoresLimits(stream: string, maxBody: nat, limit: nat)
    requires limit >= MAX_LENGTH
    ensures FirstFrameWithin(stream, maxBody, limit) == FirstFrame(stream, maxBody)
  {
    hide ParseWithin, ParseRequest;
    var head := CompleteHeaderLength(stream);
    if head.Some? && !HeaderTooLarge(stream) {
      ParserLimitsUnreachable(stream[..head.value], limit);
    }
  }

  /** The frames of every stream are those of a parser with any larger limits: its limits never decide. */
  lemma {:induction false} FramesIgnoreParserLimits(stream: string, maxBody: nat, limit: nat)
    requires limit >= MAX_LENGTH
    ensures BatchFramesWithin(stream, maxBody, limit) == BatchFrames(stream, maxBody)
    decreases |stream|
  {
    hide FirstFrame, FirstFrameWithin;
    FirstFrameIgnoresLimits(stream, maxBody, limit);
    var first := FirstFrame(stream, maxBody);
    if first.Complete? && first.request.keepAlive {
      FramesIgnoreParserLimits(stream[first.length..], maxBody, limit);
    }
  }

  /** The shortest requests there are: their line, what they parse to, and that they frame at once. */
  function TinyLine(verb: string): RequestLine { RequestLine(verb, "/", "HTTP/1.1") }

  function TinyRequest(verb: string): Request { Request(verb, "/", "HTTP/1.1", map[], false, 0, "", true) }

  const TINY_LINE := TinyLine("GET")

  const TINY_REQUEST := TinyRequest("GET")

  lemma TinyIsHead(verb: string)
    requires IsToken(verb) && |verb| <= 16
    ensures IsHead(TinyLine(verb), []) && |LineText(TinyLine(verb))| == |verb| + 11 && RenderFields([]) == ""
  {
    hide IsToken;
  }

  lemma TinyParses(verb: string)
    requires IsToken(verb) && |verb| <= 16
    ensures ParseRequest(Render(TinyLine(verb), [])) == Some(TinyRequest(verb))
  {
    hide ParseRequest, IsHead, Render, IsToken, LineText;
    var rl := TinyLine(verb);
    TinyIsHead(verb);
    RenderedIsParsed(rl, []);
    NoFields();
    var request := ParseRequest(Render(rl, [])).value;
    forall name ensures name !in request.headers {
      assert EntryIs(request.headers, FieldValues([], name), name);
    }
    NoEntries(request.headers);
  }

  lemma NoFields()
    ensures LengthFieldOk([]) && KeepsOpen("HTTP/1.1", [])
  {
  }

  lemma NoEntries<K, V>(m: map<K, V>)
    requires forall k :: k !in m
    ensures m == map[]
  {
  }

  /** Whatever follows it, the shortest request is the first frame. */
  lemma TinyIsFirst(verb: string, x: string, maxBody: nat)
    requires IsToken(verb) && |verb| <= 16
    ensures var raw := Render(TinyLine(verb), []);
            FirstFrame(raw + x, maxBody) == Complete(TinyRequest(verb), |raw|) && |raw| == |verb| + 15
  {
    hide ParseRequest, CompleteHeaderLength, IsHead, IsToken, LineText;
    var raw := Render(TinyLine(verb), []);
    TinyIsHead(verb);
    RenderedIsFramed(TinyLine(verb), [], x);
    TinyParses(verb);
    assert (raw + x)[..|raw|] == raw;
    assert (raw + x)[|raw|..|raw|] == "";
  }
}
