/**
 * What a client knows of its own requests: which of those in its byte stream are HEAD,
 * also where the server refuses to parse one.
 */
module SentMethods {
  import opened Text
  import opened Decimal
  import opened HttpParser
  import opened HttpGrammar
  import opened Framing
  import opened HttpRoundTrip

  /** The request at the front of a stream is a HEAD. */
  predicate AsksHead(stream: string) {
    |stream| >= 5 && stream[..5] == "HEAD "
  }

  /** Which requests of a stream are HEAD, one flag for each frame the server cuts from it. */
  function HeadFlags(stream: string, maxBody: nat): seq<bool>
    decreases |stream|
  {
    var first := FirstFrame(stream, maxBody);
    if first.NeedMore? then [] else
    [AsksHead(stream)] + if first.Complete? && first.request.keepAlive then HeadFlags(stream[first.length..], maxBody) else []
  }

  /** What a request line starts with is the method the parser finds. */
  lemma LineStartsWithVerb(line: string)
    requires SplitRequestLine(line).Some?
    ensures AsksHead(line) <==> SplitRequestLine(line).value.verb == "HEAD"
    ensures |SplitRequestLine(line).value.verb| < |line|
  {
    var first := IndexOf(line, ' ', 0).value;
    IndexOfIsFirst(line, ' ', 0);
    var verb := line[..first];
    if AsksHead(line) {
      assert line[..5][4] == line[4] == ' ';
      forall j: nat | j < 4 ensures line[j] != ' ' {
        assert line[..5][j] == line[j] == "HEAD "[j];
      }
      assert first == 4;
      assert verb == line[..5][..4] == "HEAD";
    }
    if verb == "HEAD" {
      assert line[..5] == verb + [line[4]];
    }
  }

  /** A longer text asks for the same as one of its prefixes that has a first line. */
  lemma AsksAsPrefix(stream: string, line: string)
    requires line <= stream && (|line| >= 5 || (line != "" && line[|line| - 1] == '\n'))
    ensures AsksHead(stream) <==> AsksHead(line)
  {
    if |line| >= 5 {
      assert stream[..5] == line[..5];
    } else if |stream| >= 5 {
      assert stream[..5][|line| - 1] == line[|line| - 1];
    }
  }

  lemma ParsedAsks(raw: string)
    requires ParseRequest(raw).Some?
    ensures AsksHead(raw) <==> ParseRequest(raw).value.verb == "HEAD"
  {
    hide ReadHeaders, AsksHead, SplitRequestLine, Acceptable, ShouldKeepAlive;
    var line := StripCr(raw[..LineEnd(raw, 0)]);
    LineStartsWithVerb(line);
    SplitIsLong(line);
    AsksAsPrefix(raw, line);
  }

  /** An acceptable request line has a method, a blank, a target, a blank and a version. */
  lemma SplitIsLong(line: string)
    requires SplitRequestLine(line).Some? && Acceptable(SplitRequestLine(line).value)
    ensures |line| >= 5
  {
  }

  /** The flag of a frame the server parses tells its method. */
  lemma FirstAsks(stream: string, maxBody: nat)
    requires FirstFrame(stream, maxBody).Complete?
    ensures AsksHead(stream) <==> FirstFrame(stream, maxBody).request.verb == "HEAD"
  {
    hide ParseRequest, AsksHead, CompleteHeaderLength;
    var raw := stream[..CompleteHeaderLength(stream).value];
    ParsedAsks(raw);
    EndsLine(stream);
    AsksAsPrefix(stream, raw);
  }

  lemma EndsLine(stream: string)
    requires CompleteHeaderLength(stream).Some?
    ensures var n := CompleteHeaderLength(stream).value; 0 < n <= |stream| && stream[..n][n - 1] == '\n'
  {
    var n := CompleteHeaderLength(stream).value;
    var crlf, lf := Find(stream, "\r\n\r\n", 0), Find(stream, "\n\n", 0);
    if lf.Some? && n == lf.value + 2 {
      assert stream[lf.value..n][1] == stream[n - 1];
    } else {
      assert stream[crlf.value..n][3] == stream[n - 1];
    }
  }

  /** A flag for each frame, and for a parsed request the flag is its method. */
  ghost predicate FlagsFit(flags: seq<bool>, frames: seq<Frame>) {
    |frames| <= |flags| && forall k :: 0 <= k < |frames| && frames[k].Good? ==> (flags[k] <==> frames[k].request.verb == "HEAD")
  }

  lemma {:induction false} FlagsFitFrames(stream: string, maxBody: nat)
    ensures |HeadFlags(stream, maxBody)| == |BatchFrames(stream, maxBody)|
    ensures FlagsFit(HeadFlags(stream, maxBody), BatchFrames(stream, maxBody))
    decreases |stream|
  {
    hide FirstFrame, AsksHead;
    var first := FirstFrame(stream, maxBody);
    if first.Complete? {
      FirstAsks(stream, maxBody);
      if first.request.keepAlive {
        FlagsFitFrames(stream[first.length..], maxBody);
      }
    }
  }

  lemma FlagsFitFirst(flags: seq<bool>, frames: seq<Frame>)
    requires FlagsFit(flags, frames) && frames != []
    ensures flags != [] && FlagsFit(flags[1..], frames[1..])
    ensures frames[0].Good? ==> (flags[0] <==> frames[0].request.verb == "HEAD")
  {
    var more, rest := flags[1..], frames[1..];
    assert forall k :: 0 <= k < |rest| ==> rest[k] == frames[k + 1] && more[k] == flags[k + 1];
  }

  lemma FlagsFitLonger(flags: seq<bool>, longer: seq<bool>, frames: seq<Frame>)
    requires FlagsFit(flags, frames) && flags <= longer
    ensures FlagsFit(longer, frames)
  {
  }

  /** More bytes change no flag. */
  lemma {:induction false} HeadFlagsGrow(stream: string, x: string, maxBody: nat)
    ensures HeadFlags(stream, maxBody) <= HeadFlags(stream + x, maxBody)
    decreases |stream|
  {
    hide FirstFrame, AsksHead;
    var first := FirstFrame(stream, maxBody);
    if !first.NeedMore? {
      FirstFrameStable(stream, x, maxBody);
      DecidedAsks(stream, x, maxBody);
      if first.Complete? && first.request.keepAlive {
        assert (stream + x)[first.length..] == stream[first.length..] + x;
        HeadFlagsGrow(stream[first.length..], x, maxBody);
      }
    }
  }

  lemma DecidedAsks(stream: string, x: string, maxBody: nat)
    requires !FirstFrame(stream, maxBody).NeedMore?
    ensures AsksHead(stream + x) <==> AsksHead(stream)
  {
    hide ParseRequest, AsksHead, CompleteHeaderLength;
    if CompleteHeaderLength(stream).Some? {
      EndsLine(stream);
      var head := stream[..CompleteHeaderLength(stream).value];
      AsksAsPrefix(stream, head);
      AsksAsPrefix(stream + x, head);
    } else {
      AsksAsPrefix(stream + x, stream);
    }
  }

  // ---- A client's own requests ----

  lemma RenderedAsks(rl: RequestLine, fields: seq<Field>, x: string)
    requires IsHead(rl, fields)
    ensures AsksHead(Render(rl, fields) + x) <==> rl.verb == "HEAD"
  {
    hide AsksHead, SplitRequestLine, RenderFields, Acceptable, IsField;
    var line := LineText(rl);
    LineTextIs(rl);
    RequestLineExact(line, rl);
    LineStartsWithVerb(line);
    SplitIsLong(line);
    var rest := "\r\n" + RenderFields(fields) + "\r\n" + x;
    assert Render(rl, fields) + x == line + rest;
    AsksAsPrefix(line + rest, line);
  }

  /** A request as its client writes it. */
  datatype Message = Message(rl: RequestLine, fields: seq<Field>, body: string)

  /** The length a client announces, if it announces one the server can read. */
  function LengthAnnounced(fields: seq<Field>): nat {
    var values := FieldValues(fields, "content-length");
    if LengthFieldOk(fields) && |values| == 1 then ParseWord(values[0]).value else 0
  }

  /** A canonical request; a POST has the body it announces, and nothing else has one. */
  predicate IsMessage(m: Message) {
    && IsHead(m.rl, m.fields)
    && if m.rl.verb == "POST" then (LengthFieldOk(m.fields) ==> |m.body| == LengthAnnounced(m.fields)) else m.body == ""
  }

  function Stream(ms: seq<Message>): string {
    if ms == [] then "" else Render(ms[0].rl, ms[0].fields) + ms[0].body + Stream(ms[1..])
  }

  function AreHead(ms: seq<Message>): seq<bool> {
    if ms == [] then [] else [ms[0].rl.verb == "HEAD"] + AreHead(ms[1..])
  }

  lemma {:induction false} AreHeadLength(ms: seq<Message>)
    ensures |AreHead(ms)| == |ms|
  {
    if ms != [] {
      AreHeadLength(ms[1..]);
    }
  }

  /** A request that says what the message says, body and all. */
  ghost predicate IsAsked(request: Request, m: Message) {
    Says(request.(body := ""), m.rl, m.fields) && request.body == m.body
  }

  /**
   * What a message frames as, whatever follows it: refused where its head is over 8192 bytes, its
   * Content-Length is no single number, or its body is over the limit; otherwise itself.
   */
  lemma MessageIsFramed(m: Message, x: string, maxBody: nat)
    requires IsMessage(m)
    ensures var raw := Render(m.rl, m.fields) + m.body;
            var first := FirstFrame(raw + x, maxBody);
            if |Render(m.rl, m.fields)| > 8192 then first == HeaderOverflow
            else if !LengthFieldOk(m.fields) then first == Malformed
            else if |m.body| > maxBody then first == BodyOverflow
            else first.Complete? && first.length == |raw| && IsAsked(first.request, m)
  {
    hide ParseRequest, CompleteHeaderLength, IsHead, FieldValues, LineText, RenderFields, Render, LengthFieldOk, LengthAnnounced;
    hide ParseWord, KeepsOpen, EntryIs, Says;
    var head, all := Render(m.rl, m.fields), Render(m.rl, m.fields) + m.body + x;
    RenderedIsFramed(m.rl, m.fields, m.body + x);
    assert all == head + (m.body + x) && all[..|head|] == head;
    RenderedIsParsed(m.rl, m.fields);
    RenderIsLonger(m.rl, m.fields);
    if |head| <= 8192 && LengthFieldOk(m.fields) {
      var request := ParseRequest(head).value;
      BodyIsAnnounced(m, request);
      assert all[|head|..|head| + |m.body|] == m.body;
      SaysWithBody(request, m);
    }
  }

  lemma RenderIsLonger(rl: RequestLine, fields: seq<Field>)
    ensures |Render(rl, fields)| == |LineText(rl)| + |RenderFields(fields)| + 4
  {
    hide LineText, RenderFields;
  }

  lemma BodyIsAnnounced(m: Message, request: Request)
    requires IsMessage(m) && LengthFieldOk(m.fields) && Says(request, m.rl, m.fields)
    ensures BodyLength(request) == |m.body|
  {
    hide IsHead, FieldValues, ParseWord, KeepsOpen, EntryIs;
  }

  lemma SaysWithBody(request: Request, m: Message)
    requires Says(request, m.rl, m.fields)
    ensures IsAsked(request.(body := m.body), m)
  {
    hide FieldValues, ParseWord, KeepsOpen, EntryIs;
    assert request.(body := m.body).(body := "") == request;
  }

  /**
   * The frames of a client's requests, told by the requests alone: one good frame for each, in order,
   * up to the first that is refused or asks to close.
   */
  ghost predicate FramesAre(frames: seq<Frame>, ms: seq<Message>, maxBody: nat)
    decreases |ms|
  {
    if ms == [] then frames == [] else
    var m := ms[0];
    if |Render(m.rl, m.fields)| > 8192 then frames == [Reject413]
    else if !LengthFieldOk(m.fields) then frames == [Reject400]
    else if |m.body| > maxBody then frames == [Reject413]
    else
      && frames != [] && frames[0].Good? && IsAsked(frames[0].request, m)
      && if KeepsOpen(m.rl.version, m.fields) then FramesAre(frames[1..], ms[1..], maxBody) else frames[1..] == []
  }

  /** The server frames what its client wrote, request by request. */
  lemma {:induction false} StreamIsFramed(ms: seq<Message>, maxBody: nat)
    requires AreMessages(ms)
    ensures FramesAre(BatchFrames(Stream(ms), maxBody), ms, maxBody)
    decreases |ms|
  {
    hide FirstFrame, IsMessage, Render, KeepsOpen, LengthFieldOk, IsAsked;
    if ms == [] {
      NothingFramed(maxBody);
    } else {
      var raw, x := Render(ms[0].rl, ms[0].fields) + ms[0].body, Stream(ms[1..]);
      MessageIsFramed(ms[0], x, maxBody);
      var first := FirstFrame(raw + x, maxBody);
      if first.Complete? {
        assert (raw + x)[|raw|..] == x;
        AskedKeepsOpen(first.request, ms[0]);
        StreamIsFramed(ms[1..], maxBody);
        var rest := if first.request.keepAlive then BatchFrames(x, maxBody) else [];
        assert ([Good(first.request)] + rest)[1..] == rest;
      }
    }
  }

  lemma AskedKeepsOpen(request: Request, m: Message)
    requires IsAsked(request, m)
    ensures request.keepAlive <==> KeepsOpen(m.rl.version, m.fields)
  {
    hide FieldValues, ParseWord, KeepsOpen, EntryIs;
  }

  predicate AreMessages(ms: seq<Message>) {
    forall k :: 0 <= k < |ms| ==> IsMessage(ms[k])
  }

  /** What the client knows of its requests begins with the flags of its bytes. */
  lemma {:induction false} StreamFlags(ms: seq<Message>, maxBody: nat)
    requires AreMessages(ms)
    ensures HeadFlags(Stream(ms), maxBody) <= AreHead(ms)
    decreases |ms|
  {
    hide FirstFrame, AsksHead, IsMessage, Render, HeadFlags;
    if ms == [] {
      NothingFramed(maxBody);
    } else {
      StreamFlags(ms[1..], maxBody);
      MessageFlags(ms[0], Stream(ms[1..]), maxBody);
    }
  }

  /** The flags of a message and what follows are its own and, unless it ends the connection, those that follow. */
  lemma MessageFlags(m: Message, x: string, maxBody: nat)
    requires IsMessage(m)
    ensures var flags := HeadFlags(Render(m.rl, m.fields) + m.body + x, maxBody);
            flags == [m.rl.verb == "HEAD"] || flags == [m.rl.verb == "HEAD"] + HeadFlags(x, maxBody)
  {
    hide FirstFrame, AsksHead, IsMessage, Render;
    var raw := Render(m.rl, m.fields) + m.body;
    MessageIsFramed(m, x, maxBody);
    MessageAsks(m, x);
    assert (raw + x)[|raw|..] == x;
  }

  lemma MessageAsks(m: Message, x: string)
    requires IsMessage(m)
    ensures AsksHead(Render(m.rl, m.fields) + m.body + x) <==> m.rl.verb == "HEAD"
  {
    hide AsksHead, IsHead, Render, LengthFieldOk;
    RenderedAsks(m.rl, m.fields, m.body + x);
    assert Render(m.rl, m.fields) + m.body + x == Render(m.rl, m.fields) + (m.body + x);
  }

  lemma NothingFramed(maxBody: nat)
    ensures FirstFrame("", maxBody).NeedMore? && HeadFlags("", maxBody) == [] && BatchFrames("", maxBody) == []
  {
    hide ParseRequest;
  }

  /** What follows the head of anything but a POST is taken for the next request, also where it was meant as a body. */
  lemma OnlyPostHasBody(rl: RequestLine, fields: seq<Field>, x: string, maxBody: nat)
    requires IsHead(rl, fields) && rl.verb != "POST"
    ensures var head := Render(rl, fields);
            var first := FirstFrame(head + x, maxBody);
            first.Complete? ==> first.length == |head| && (first.request.keepAlive ==>
              BatchFrames(head + x, maxBody) == [Good(first.request)] + BatchFrames(x, maxBody))
  {
    hide ParseRequest, CompleteHeaderLength, IsHead, LengthFieldOk, FieldValues, LineText, RenderFields, Render;
    hide ParseWord, KeepsOpen, EntryIs;
    var head := Render(rl, fields);
    RenderedIsFramed(rl, fields, x);
    assert (head + x)[..|head|] == head && (head + x)[|head|..] == x;
    RenderedIsParsed(rl, fields);
  }
}
