/** Responses as HttpResponse renders them, and what a client reads from the rendered head. */
module HttpResponses {
  import opened Options
  import opened Text
  import opened Decimal
  import opened Lists
  import opened HttpParser
  import opened HttpGrammar
  import opened HttpRoundTrip

  datatype Response = Response(
    statusCode: nat,
    statusText: string,
    contentType: string,
    body: string,
    contentLength: nat,
    headers: seq<Field>,
    keepAlive: bool)

  function NewResponse(statusCode: nat, statusText: string): Response {
    Response(statusCode, statusText, "text/plain; charset=utf-8", "", 0, [], false)
  }

  function SetBody(r: Response, body: string): Response {
    r.(body := body, contentLength := |body|)
  }

  predicate Before(a: string, b: string) {
    if b == "" then false
    else if a == "" then true
    else a[0] < b[0] || (a[0] == b[0] && Before(a[1..], b[1..]))
  }

  /** Headers stay in the order of their names, as in the std::map that holds them. */
  function SetHeader(headers: seq<Field>, name: string, value: string): seq<Field> {
    if headers == [] || Before(name, headers[0].name) then [Field(name, value)] + headers
    else if headers[0].name == name then [Field(name, value)] + headers[1..]
    else [headers[0]] + SetHeader(headers[1..], name, value)
  }

  function ConnectionOption(keepAlive: bool): string {
    if keepAlive then "keep-alive" else "close"
  }

  /** HttpResponse::toString. */
  function ToText(r: Response, includeBody: bool): string {
    "HTTP/1.1 " + Print(r.statusCode) + " " + r.statusText + "\r\n"
    + "Content-Type: " + r.contentType + "\r\n"
    + "Content-Length: " + Print(r.contentLength) + "\r\n"
    + "Connection: " + ConnectionOption(r.keepAlive) + "\r\n"
    + RenderFields(r.headers)
    + "\r\n"
    + if includeBody then r.body else ""
  }

  /** HttpResponseResult: what a worker hands back to the event loop. */
  datatype Result = Result(
    response: string,
    statusCode: nat,
    bodySize: nat,
    keepAlive: bool,
    closeAfterWrite: bool,
    sendFile: bool,
    filePath: string,
    fileSize: nat,
    fileOffset: nat,
    fileTransferSize: nat,
    contentType: string)

  function MakeResult(r: Response, keepAlive: bool, includeBody: bool): Result {
    Result(ToText(r, includeBody), r.statusCode, r.contentLength, keepAlive, false, false, "", 0, 0, 0, "")
  }

  function TextResult(statusCode: nat, text: string, keepAlive: bool, includeBody: bool): Result {
    MakeResult(SetBody(NewResponse(statusCode, text), text).(keepAlive := keepAlive), keepAlive, includeBody)
  }

  /** A further header that stays on its line and is neither Connection nor Content-Length. */
  predicate IsQuiet(f: Field) {
    IsToken(f.name) && '\n' !in f.value && ToLower(f.name) != "connection" && ToLower(f.name) != "content-length"
  }

  predicate AllQuiet(headers: seq<Field>) { forall i :: 0 <= i < |headers| ==> IsQuiet(headers[i]) }

  predicate OnOwnLines(r: Response) {
    '\n' !in r.statusText && '\n' !in r.contentType && AllQuiet(r.headers)
  }

  lemma {:induction false} SetHeaderQuiet(headers: seq<Field>, name: string, value: string)
    requires AllQuiet(headers) && IsQuiet(Field(name, value))
    ensures AllQuiet(SetHeader(headers, name, value))
  {
    hide IsQuiet, Before;
    if !(headers == [] || Before(name, headers[0].name) || headers[0].name == name) {
      SetHeaderQuiet(headers[1..], name, value);
    }
  }

  /** The values of one header in a response head, read line by line. */
  function HeaderValues(head: string, name: string): seq<string>
    requires head != "" && AllFieldLines(FieldLines(head, LineNext(head, 0)))
  {
    ValuesOf(FieldLines(head, LineNext(head, 0)), name)
  }

  /** The code in the status line of a response: the text between its first two blanks. */
  function StatusOf(head: string): Option<nat> {
    var first := IndexOf(head, ' ', 0);
    if first.None? then None else
    var second := IndexOf(head, ' ', first.value + 1);
    if second.None? then None else
    var code := head[first.value + 1..second.value];
    if code != "" && AllDigits(code) then Some(Value(code)) else None
  }

  /** The options of all Connection fields say close or keep-alive, and never both. */
  ghost predicate SaysPersistence(head: string, keepAlive: bool)
    requires head != "" && AllFieldLines(FieldLines(head, LineNext(head, 0)))
  {
    var options := AllElements(HeaderValues(head, "connection"));
    && (HasLowered(options, "close") <==> !keepAlive)
    && (HasLowered(options, "keep-alive") <==> keepAlive)
  }

  /** One Content-Length field, and that the number. */
  ghost predicate SaysLength(head: string, length: nat)
    requires head != "" && AllFieldLines(FieldLines(head, LineNext(head, 0)))
  {
    var values := HeaderValues(head, "content-length");
    |values| == 1 && values[0] != "" && AllDigits(values[0]) && Value(values[0]) == length
  }

  /** A head whose lines read well and announce a status, a length and whether the connection persists. */
  ghost predicate Announces(head: string, statusCode: nat, length: nat, keepAlive: bool) {
    && head != "" && AllFieldLines(FieldLines(head, LineNext(head, 0)))
    && StatusOf(head) == Some(statusCode)
    && SaysLength(head, length) && SaysPersistence(head, keepAlive)
  }

  function HeadFields(r: Response): seq<Field> {
    [Field("Content-Type", r.contentType),
     Field("Content-Length", Print(r.contentLength)),
     Field("Connection", ConnectionOption(r.keepAlive))] + r.headers
  }

  lemma RenderThree(a: Field, b: Field, c: Field, rest: seq<Field>)
    ensures RenderFields([a, b, c] + rest)
         == FieldText(a) + "\r\n" + (FieldText(b) + "\r\n" + (FieldText(c) + "\r\n" + RenderFields(rest)))
  {
    hide FieldText;
    assert ([a, b, c] + rest)[1..] == [b, c] + rest;
    assert ([b, c] + rest)[1..] == [c] + rest;
    assert ([c] + rest)[1..] == rest;
    assert RenderFields([c] + rest) == FieldText(c) + "\r\n" + RenderFields(rest);
    assert RenderFields([b, c] + rest) == FieldText(b) + "\r\n" + RenderFields([c] + rest);
  }

  /** The rendered text is a status line, the header fields one per line, and a blank line. */
  lemma TextShape(r: Response, includeBody: bool)
    ensures ToText(r, includeBody)
         == "HTTP/1.1 " + Print(r.statusCode) + " " + r.statusText + "\r\n"
            + RenderFields(HeadFields(r)) + "\r\n" + if includeBody then r.body else ""
  {
    hide RenderFields, Print, ConnectionOption;
    var a, b, c := Field("Content-Type", r.contentType), Field("Content-Length", Print(r.contentLength)),
                   Field("Connection", ConnectionOption(r.keepAlive));
    RenderThree(a, b, c, r.headers);
    assert FieldText(a) == "Content-Type: " + r.contentType;
    assert FieldText(b) == "Content-Length: " + Print(r.contentLength);
    assert FieldText(c) == "Connection: " + ConnectionOption(r.keepAlive);
    Flatten("HTTP/1.1 " + Print(r.statusCode) + " " + r.statusText + "\r\n",
            FieldText(a), FieldText(b), FieldText(c), RenderFields(r.headers));
    FlatLines("HTTP/1.1 " + Print(r.statusCode) + " " + r.statusText + "\r\n",
              "Content-Type: ", r.contentType, "Content-Length: ", Print(r.contentLength),
              "Connection: ", ConnectionOption(r.keepAlive), RenderFields(r.headers));
  }

  lemma Flatten(status: string, a: string, b: string, c: string, rest: string)
    ensures status + (a + "\r\n" + (b + "\r\n" + (c + "\r\n" + rest)))
         == status + a + "\r\n" + b + "\r\n" + c + "\r\n" + rest
  {
  }

  lemma FlatLines(s: string, n1: string, v1: string, n2: string, v2: string, n3: string, v3: string, rest: string)
    ensures s + n1 + v1 + "\r\n" + n2 + v2 + "\r\n" + n3 + v3 + "\r\n" + rest
         == s + (n1 + v1) + "\r\n" + (n2 + v2) + "\r\n" + (n3 + v3) + "\r\n" + rest
  {
  }

  lemma {:induction false} ValuesOfAppend(lines: seq<string>, rest: seq<string>, name: string)
    requires AllFieldLines(lines) && AllFieldLines(rest) && AllFieldLines(lines + rest)
    requires forall i :: 0 <= i < |rest| ==> FieldName(rest[i]) != name
    ensures ValuesOf(lines + rest, name) == ValuesOf(lines, name)
    decreases |rest|
  {
    hide IsFieldLine, FieldName, FieldValue;
    if rest == [] {
      assert lines + rest == lines;
    } else {
      var front := rest[..|rest| - 1];
      assert (lines + rest)[..|lines + rest| - 1] == lines + front;
      ValuesOfAppend(lines, front, name);
      assert FieldName(rest[|rest| - 1]) != name;
    }
  }

  lemma {:induction false} TextsAppend(fields: seq<Field>, more: seq<Field>)
    ensures Texts(fields + more) == Texts(fields) + Texts(more)
    decreases |fields|
  {
    hide FieldText;
    if fields == [] {
      assert fields + more == more && [] + Texts(more) == Texts(more);
    } else {
      assert (fields + more)[1..] == fields[1..] + more;
      TextsAppend(fields[1..], more);
      assert [FieldText(fields[0])] + (Texts(fields[1..]) + Texts(more))
          == [FieldText(fields[0])] + Texts(fields[1..]) + Texts(more);
    }
  }

  lemma {:induction false} TextsAt(fields: seq<Field>, i: nat)
    requires i < |fields|
    ensures |Texts(fields)| == |fields| && Texts(fields)[i] == FieldText(fields[i])
    decreases |fields|
  {
    hide FieldText;
    TextsLength(fields);
    if i > 0 {
      TextsAt(fields[1..], i - 1);
    }
  }

  lemma {:induction false} TextsLength(fields: seq<Field>)
    ensures |Texts(fields)| == |fields|
  {
    hide FieldText;
    if fields != [] {
      TextsLength(fields[1..]);
    }
  }

  /** Three lines of different names: each name is looked up alone. */
  lemma ValuesOfThree(a: string, b: string, c: string, name: string)
    requires IsFieldLine(a) && IsFieldLine(b) && IsFieldLine(c)
    ensures AllFieldLines([a, b, c])
    ensures FieldName(b) == name && FieldName(a) != name && FieldName(c) != name ==>
              ValuesOf([a, b, c], name) == [FieldValue(b)]
    ensures FieldName(c) == name && FieldName(a) != name && FieldName(b) != name ==>
              ValuesOf([a, b, c], name) == [FieldValue(c)]
  {
    hide IsFieldLine, FieldName, FieldValue;
    assert [a, b, c][..2] == [a, b] && [a, b][..1] == [a] && [a][..0] == [];
    assert ValuesOf([], name) == [];
    assert ValuesOf([a], name) == if FieldName(a) == name then [FieldValue(a)] else [];
  }

  lemma PrintIsCore(n: nat)
    ensures IsCore(Print(n)) && '\n' !in Print(n)
  {
  }

  lemma TrimCore(s: string)
    requires IsCore(s)
    ensures Trim(s) == s
  {
    hide Trim, IsCore;
    TrimOf("", s, "");
    assert "" + s + "" == s;
  }

  /** What the three standard header lines read as. */
  lemma StandardLines(contentType: string, length: nat, keepAlive: bool)
    requires '\n' !in contentType
    ensures var fields := [Field("Content-Type", contentType), Field("Content-Length", Print(length)),
                           Field("Connection", ConnectionOption(keepAlive))];
            && OneLineEach(fields)
            && AllFieldLines(Texts(fields))
            && ValuesOf(Texts(fields), "content-length") == [Print(length)]
            && ValuesOf(Texts(fields), "connection") == [ConnectionOption(keepAlive)]
  {
    hide IsFieldLine, FieldName, FieldValue, Trim, Print, ValuesOf, FieldText, IsCore, ToLower, IsToken;
    hide ConnectionOption, Texts;
    var a, b, c := Field("Content-Type", contentType), Field("Content-Length", Print(length)),
                   Field("Connection", ConnectionOption(keepAlive));
    PrintIsCore(length);
    OptionIsCore(keepAlive);
    TrimCore(Print(length));
    TrimCore(ConnectionOption(keepAlive));
    StandardNames();
    FieldTextOneLine(a);
    FieldTextOneLine(b);
    FieldTextOneLine(c);
    TextsOfThree(a, b, c);
    ValuesOfThree(FieldText(a), FieldText(b), FieldText(c), "content-length");
    ValuesOfThree(FieldText(a), FieldText(b), FieldText(c), "connection");
  }

  lemma TextsOfThree(a: Field, b: Field, c: Field)
    ensures Texts([a, b, c]) == [FieldText(a), FieldText(b), FieldText(c)]
  {
    hide FieldText;
    assert [a, b, c][1..] == [b, c] && [b, c][1..] == [c] && [c][1..] == [];
    assert Texts([]) == [] && Texts([c]) == [FieldText(c)] && Texts([b, c]) == [FieldText(b)] + Texts([c]);
  }

  lemma OptionIsCore(keepAlive: bool)
    ensures IsCore(ConnectionOption(keepAlive)) && '\n' !in ConnectionOption(keepAlive)
  {
  }

  lemma LowerIs(s: string, lower: string)
    requires |s| == |lower| && forall i :: 0 <= i < |s| ==> LowerChar(s[i]) == lower[i]
    ensures ToLower(s) == lower
  {
    hide ToLower;
    assert forall i :: 0 <= i < |s| ==> ToLower(s)[i] == lower[i];
  }

  lemma StandardNames()
    ensures IsToken("Content-Type") && IsToken("Content-Length") && IsToken("Connection")
    ensures ToLower("Content-Length") == "content-length" && ToLower("Connection") == "connection"
    ensures ToLower("Content-Type") == "content-type"
  {
    hide ToLower;
    LowerIs("Content-Length", "content-length");
    LowerIs("Connection", "connection");
    LowerIs("Content-Type", "content-type");
  }

  /** The code of a status line is the text between its first two blanks. */
  lemma CodeIsRead(code: string, rest: string)
    requires code != "" && AllDigits(code)
    ensures StatusOf("HTTP/1.1 " + code + " " + rest) == Some(Value(code))
  {
    hide IndexOf, Value;
    var head := "HTTP/1.1 " + code + " " + rest;
    assert head[8] == ' ' && forall j: nat :: j < 8 ==> head[j] == "HTTP/1.1"[j];
    forall j: nat | j < 8 ensures head[j] != ' ' {
      assert "HTTP/1.1"[j] != ' ';
    }
    IndexOfUnique(head, ' ', 0, 8);
    var end := 9 + |code|;
    assert head[end] == ' ' && head[9..end] == code;
    forall j: nat | 9 <= j < end ensures head[j] != ' ' {
      assert head[j] == code[j - 9] && IsDigit(code[j - 9]);
    }
    IndexOfUnique(head, ' ', 9, end);
  }

  /** A single option in lower case is the only element, and itself. */
  lemma OneOption(option: string)
    requires IsCore(option) && ',' !in option && forall i :: 0 <= i < |option| ==> LowerChar(option[i]) == option[i]
    ensures AllElements([option]) == [option] && ToLower(option) == option
  {
    hide Trim, ToLower, IsCore, IndexOf;
    TrimCore(option);
    IndexOfAbsent(option, ',', 0);
    assert option[0..] == option;
    assert Elements(option) == [option];
    assert [option][..0] == [] && AllElements([]) == [];
    LowerIs(option, option);
  }

  /** The printed option says what it should, read as a list of options. */
  lemma OptionIsRead(keepAlive: bool)
    ensures var options := AllElements([ConnectionOption(keepAlive)]);
            && (HasLowered(options, "close") <==> !keepAlive)
            && (HasLowered(options, "keep-alive") <==> keepAlive)
  {
    hide AllElements, HasLowered, ToLower, IsCore;
    var option := ConnectionOption(keepAlive);
    OptionIsCore(keepAlive);
    OptionIsLower(keepAlive);
    OneOption(option);
    HasLoweredOne(option, "close");
    HasLoweredOne(option, "keep-alive");
  }

  lemma OptionIsLower(keepAlive: bool)
    ensures var option := ConnectionOption(keepAlive);
            && ',' !in option && (forall i :: 0 <= i < |option| ==> LowerChar(option[i]) == option[i])
            && (option == "close" <==> !keepAlive) && (option == "keep-alive" <==> keepAlive)
  {
    assert |"close"| == 5 && |"keep-alive"| == 10;
  }

  lemma TextStarts(r: Response, includeBody: bool) returns (rest: string)
    ensures ToText(r, includeBody) == "HTTP/1.1 " + Print(r.statusCode) + " " + rest
  {
    hide ToText, RenderFields, Print;
    TextShape(r, includeBody);
    var start, fields := "HTTP/1.1 " + Print(r.statusCode) + " ", RenderFields(HeadFields(r));
    var body := if includeBody then r.body else "";
    rest := r.statusText + "\r\n" + fields + "\r\n" + body;
    FirstApart(start, r.statusText, "\r\n", fields, "\r\n", body);
  }

  lemma FirstApart(start: string, a: string, b: string, c: string, d: string, e: string)
    ensures start + a + b + c + d + e == start + (a + b + c + d + e)
  {
  }

  /** A rendered response announces its own status, content length and whether the connection persists. */
  lemma TextAnnounces(r: Response, includeBody: bool)
    requires OnOwnLines(r)
    ensures Announces(ToText(r, includeBody), r.statusCode, r.contentLength, r.keepAlive)
  {
    hide ToText, StatusOf, AllElements, HasLowered, ConnectionOption;
    ValuesAreRead(r, includeBody);
    OptionIsRead(r.keepAlive);
    var rest := TextStarts(r, includeBody);
    CodeIsRead(Print(r.statusCode), rest);
  }

  /** What the lines of a rendered head hold for the two names the server always writes. */
  lemma ValuesAreRead(r: Response, includeBody: bool)
    requires OnOwnLines(r)
    ensures var text := ToText(r, includeBody);
            && text != "" && AllFieldLines(FieldLines(text, LineNext(text, 0)))
            && HeaderValues(text, "connection") == [ConnectionOption(r.keepAlive)]
            && HeaderValues(text, "content-length") == [Print(r.contentLength)]
  {
    hide ToText, RenderFields, FieldLines, ValuesOf, IsFieldLine, FieldName, FieldValue, LineEnd, LineNext, StripCr, Print;
    var status := "HTTP/1.1 " + Print(r.statusCode) + " " + r.statusText;
    var body := if includeBody then r.body else "";
    var rest := RenderFields(HeadFields(r)) + "\r\n" + body;
    var text := ToText(r, includeBody);
    TextShape(r, includeBody);
    assert text == "" + status + "\r\n" + rest;
    PrintIsCore(r.statusCode);
    LineAt("", status, rest);
    StandardLines(r.contentType, r.contentLength, r.keepAlive);
    HeadFieldsOneLine(r);
    FieldsAt(status + "\r\n", HeadFields(r), body);
    assert text == (status + "\r\n") + RenderFields(HeadFields(r)) + "\r\n" + body;
    HeadLines(r);
  }

  lemma HeadFieldsOneLine(r: Response)
    requires OnOwnLines(r)
    requires OneLineEach(HeadFields(r)[..3])
    ensures OneLineEach(HeadFields(r)) && OneLineEach(r.headers)
  {
    hide IsToken, ToLower;
    assert forall i :: 0 <= i < |r.headers| ==> IsQuiet(r.headers[i]);
    var fields := HeadFields(r);
    forall i | 0 <= i < |fields| ensures IsToken(fields[i].name) && '\n' !in fields[i].value {
      if i < 3 {
        assert fields[i] == fields[..3][i];
      } else {
        assert fields[i] == r.headers[i - 3] && IsQuiet(r.headers[i - 3]);
      }
    }
  }

  /** The further headers have other names, so they do not disturb the two values. */
  lemma HeadLines(r: Response)
    requires OnOwnLines(r) && OneLineEach(HeadFields(r)) && OneLineEach(r.headers)
    ensures AllFieldLines(Texts(HeadFields(r)))
    ensures ValuesOf(Texts(HeadFields(r)), "connection") == [ConnectionOption(r.keepAlive)]
    ensures ValuesOf(Texts(HeadFields(r)), "content-length") == [Print(r.contentLength)]
  {
    hide ValuesOf, IsFieldLine, FieldName, FieldValue, Print, FieldText, IsToken;
    StandardLines(r.contentType, r.contentLength, r.keepAlive);
    var three := HeadFields(r)[..3];
    assert HeadFields(r) == three + r.headers;
    TextsAreFieldLines(HeadFields(r));
    TextsAreFieldLines(r.headers);
    TextsAppend(three, r.headers);
    var rest := Texts(r.headers);
    TextsLength(r.headers);
    forall i | 0 <= i < |rest|
      ensures FieldName(rest[i]) != "connection" && FieldName(rest[i]) != "content-length"
    {
      TextsAt(r.headers, i);
      assert IsQuiet(r.headers[i]);
      FieldTextOneLine(r.headers[i]);
    }
    ValuesOfAppend(Texts(three), rest, "connection");
    ValuesOfAppend(Texts(three), rest, "content-length");
  }

  // ---- The further headers ----

  function Trimmed(values: seq<string>): seq<string> {
    if values == [] then [] else [Trim(values[0])] + Trimmed(values[1..])
  }

  lemma TrimmedCons(value: string, values: seq<string>)
    ensures Trimmed([value] + values) == [Trim(value)] + Trimmed(values)
  {
    assert ([value] + values)[1..] == values;
  }

  lemma {:induction false} TextsGiveTrimmed(fields: seq<Field>, name: string)
    requires OneLineEach(fields)
    ensures AllFieldLines(Texts(fields)) && ValuesOf(Texts(fields), name) == Trimmed(FieldValues(fields, name))
  {
    hide IsToken, IsFieldLine, FieldName, FieldValue, Trim, ToLower, FieldText;
    if fields != [] {
      FieldTextOneLine(fields[0]);
      TextsGiveTrimmed(fields[1..], name);
      ValuesOfCons(FieldText(fields[0]), Texts(fields[1..]), name);
      TrimmedCons(fields[0].value, FieldValues(fields[1..], name));
      assert [] + FieldValues(fields[1..], name) == FieldValues(fields[1..], name);
      assert [] + ValuesOf(Texts(fields[1..]), name) == ValuesOf(Texts(fields[1..]), name);
    }
  }

  /** Reading any header off a rendered response gives the values that were set, without blanks around them. */
  lemma HeadersAreRead(r: Response, includeBody: bool, name: string)
    requires OnOwnLines(r)
    ensures var text := ToText(r, includeBody);
            && text != "" && AllFieldLines(FieldLines(text, LineNext(text, 0)))
            && HeaderValues(text, name) == Trimmed(FieldValues(HeadFields(r), name))
  {
    hide ToText, RenderFields, FieldLines, ValuesOf, IsFieldLine, FieldName, FieldValue, LineEnd, LineNext, StripCr, Print;
    hide Trimmed, FieldValues, Texts, ConnectionOption;
    var status := "HTTP/1.1 " + Print(r.statusCode) + " " + r.statusText;
    var body := if includeBody then r.body else "";
    var rest := RenderFields(HeadFields(r)) + "\r\n" + body;
    var text := ToText(r, includeBody);
    TextShape(r, includeBody);
    assert text == "" + status + "\r\n" + rest;
    PrintIsCore(r.statusCode);
    LineAt("", status, rest);
    StandardLines(r.contentType, r.contentLength, r.keepAlive);
    HeadFieldsOneLine(r);
    FieldsAt(status + "\r\n", HeadFields(r), body);
    assert text == (status + "\r\n") + RenderFields(HeadFields(r)) + "\r\n" + body;
    TextsGiveTrimmed(HeadFields(r), name);
  }

  lemma FieldValuesCons(f: Field, rest: seq<Field>, name: string)
    ensures FieldValues([f] + rest, name) == if ToLower(f.name) == name then [f.value] + FieldValues(rest, name) else FieldValues(rest, name)
  {
    hide ToLower;
    assert ([f] + rest)[1..] == rest;
  }

  /** The three headers the server always writes, and then the further ones. */
  lemma HeadValues(r: Response, name: string)
    ensures FieldValues(HeadFields(r), name)
         == (if name == "content-type" then [r.contentType]
             else if name == "content-length" then [Print(r.contentLength)]
             else if name == "connection" then [ConnectionOption(r.keepAlive)] else []) + FieldValues(r.headers, name)
  {
    hide ToLower, Print, ConnectionOption, FieldValues;
    StandardNames();
    var a, b, c := Field("Content-Type", r.contentType), Field("Content-Length", Print(r.contentLength)),
                   Field("Connection", ConnectionOption(r.keepAlive));
    assert HeadFields(r) == [a] + ([b] + ([c] + r.headers));
    FieldValuesCons(c, r.headers, name);
    FieldValuesCons(b, [c] + r.headers, name);
    FieldValuesCons(a, [b] + ([c] + r.headers), name);
    DistinctNames();
  }

  lemma DistinctNames()
    ensures "content-type" != "content-length" && "content-type" != "connection" && "content-length" != "connection"
  {
    assert |"content-type"| == 12 && |"content-length"| == 14 && |"connection"| == 10;
  }

  lemma {:induction false} NoValues(fields: seq<Field>, name: string)
    requires forall i :: 0 <= i < |fields| ==> ToLower(fields[i].name) != name
    ensures FieldValues(fields, name) == []
  {
    hide ToLower;
    if fields != [] {
      assert forall i :: 0 <= i < |fields[1..]| ==> fields[1..][i] == fields[i + 1];
      NoValues(fields[1..], name);
    }
  }

  /** Setting a header that is not there yet adds its value and leaves every other name alone. */
  lemma {:induction false} SetHeaderGives(headers: seq<Field>, name: string, value: string, lower: string)
    requires FieldValues(headers, ToLower(name)) == []
    ensures FieldValues(SetHeader(headers, name, value), lower)
         == if lower == ToLower(name) then [value] else FieldValues(headers, lower)
  {
    hide ToLower, Before;
    var all := SetHeader(headers, name, value);
    if headers == [] || Before(name, headers[0].name) {
      assert all[1..] == headers;
    } else {
      assert headers[0].name != name;
      assert all[1..] == SetHeader(headers[1..], name, value);
      SetHeaderGives(headers[1..], name, value, lower);
    }
  }
}
