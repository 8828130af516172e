/** Every handler keeps the invariant of its connection and records what it did. */
module ConnectionSteps {
  import opened Options
  import opened HttpParser
  import opened Framing
  import opened HttpResponses
  import opened StaticFiles
  import opened Responder
  import opened Connections
  import opened ConnectionSafety

  /** Nothing to write, nothing pending, and everything framed so far answered. */
  ghost predicate IsIdle(w: World, c: Connection, h: History, maxBody: nat) {
    && !c.responsePending && c.writeBuffer == "" && !c.transfer.Active()
    && h.received <= h.sent
    && InOrder(w, h, false) && NoCloseBefore(h.emitted, |h.emitted|)
    && h.wire == Payloads(h.emitted)
    && Cuts(h.received, h.framed, c.readBuffer, maxBody)
  }

  /** The head at the front of the buffer is complete and within its limit, and the body state agrees with it. */
  predicate IsHeaded(c: Connection, maxBody: nat) {
    var head := CompleteHeaderLength(c.readBuffer);
    && head.Some? && head.value <= MAX_REQUEST_HEADER_SIZE
    && (c.body.Awaiting? ==>
          && head.value == c.body.headerLength
          && ParseRequest(c.readBuffer[..head.value]) == Some(c.body.request)
          && c.body.bodyLength == BodyLength(c.body.request) <= maxBody)
  }

  /** What processReadBuffer does, in terms of the first frame of the buffer. */
  lemma ProcessMeans(c: Connection, maxBody: nat, now: nat)
    requires IsHeaded(c, maxBody)
    ensures match FirstFrame(c.readBuffer, maxBody)
            case NeedMore =>
              exists body: BodyState :: Process(c, maxBody, now) == Stay(c.(body := body)) && IsShort(c.(body := body), maxBody)
                                        && body.Awaiting?
            case HeaderOverflow => false
            case Malformed => Process(c, maxBody, now) == RespondNow(c, Reject400, BadRequestResult(), true) && c.body.NoBody?
            case BodyOverflow => Process(c, maxBody, now) == RespondNow(c, Reject413, TooLargeResult(), true) && c.body.NoBody?
            case Complete(request, length) =>
              Process(c, maxBody, now) == Taken(c, request, length, now)
  {
    hide ParseRequest, CompleteHeaderLength, RespondNow, IsServed, IsShort, Taken, ProcessBody, Process, FirstFrame;
    var head := CompleteHeaderLength(c.readBuffer).value;
    var parsed := ParseRequest(c.readBuffer[..head]);
    if parsed.Some? && BodyLength(parsed.value) <= maxBody {
      ProcessAccepts(c, maxBody, now, head, parsed.value);
    } else {
      ProcessRefuses(c, maxBody, now, head);
    }
  }

  lemma ProcessRefuses(c: Connection, maxBody: nat, now: nat, head: nat)
    requires IsHeaded(c, maxBody) && CompleteHeaderLength(c.readBuffer) == Some(head)
    requires var parsed := ParseRequest(c.readBuffer[..head]); parsed.None? || BodyLength(parsed.value) > maxBody
    ensures c.body.NoBody?
    ensures if ParseRequest(c.readBuffer[..head]).None?
            then FirstFrame(c.readBuffer, maxBody).Malformed?
                 && Process(c, maxBody, now) == RespondNow(c, Reject400, BadRequestResult(), true)
            else FirstFrame(c.readBuffer, maxBody).BodyOverflow?
                 && Process(c, maxBody, now) == RespondNow(c, Reject413, TooLargeResult(), true)
  {
    hide ParseRequest, CompleteHeaderLength, RespondNow, BadRequestResult, TooLargeResult, ProcessBody;
  }

  lemma ProcessAccepts(c: Connection, maxBody: nat, now: nat, head: nat, request: Request)
    requires IsHeaded(c, maxBody) && CompleteHeaderLength(c.readBuffer) == Some(head)
    requires ParseRequest(c.readBuffer[..head]) == Some(request) && BodyLength(request) <= maxBody
    ensures match FirstFrame(c.readBuffer, maxBody)
            case NeedMore =>
              exists body: BodyState :: Process(c, maxBody, now) == Stay(c.(body := body)) && IsShort(c.(body := body), maxBody)
                                        && body.Awaiting?
            case Complete(whole, length) => Process(c, maxBody, now) == Taken(c, whole, length, now)
            case _ => false
  {
    hide ParseRequest, CompleteHeaderLength, RespondNow, IsServed, NotAllowedResult, BadRequestResult, TooLargeResult;
    var body := Awaiting(head, BodyLength(request), request);
    assert Process(c, maxBody, now) == ProcessBody(c.(body := body), now);
    if |c.readBuffer| < head + BodyLength(request) {
      assert IsShort(c.(body := body), maxBody);
    }
  }

  /** The reaction to a complete request at the front of the buffer. */
  function Taken(c: Connection, request: Request, length: nat, now: nat): Reaction
    requires length <= |c.readBuffer|
  {
    var c' := c.(body := NoBody, lastActive := now, readBuffer := c.readBuffer[length..]);
    if !IsServed(request) then RespondNow(c', Good(request), NotAllowedResult(request), !request.keepAlive)
    else Dispatch(c'.(responsePending := true, interest := WantsNothing), request)
  }

  /** A reaction leaves a sound connection and history, if it leaves a connection at all. */
  ghost predicate Kept(w: World, r: Reaction, h: History, maxBody: nat) {
    match r
    case Stay(c) => Sound(w, c, h, maxBody)
    case Respond(c, _, _) => Sound(w, c, Record(h, r), maxBody)
    case Dispatch(c, request) => Sound(w, c, Record(h, r), maxBody) && IsPending(c) && IsServed(request)
    case Rearm(c) => Sound(w, c, h, maxBody)
    case Drop => SoundHistory(w, h, maxBody)
  }

  lemma PayloadsNext(emitted: seq<Emission>, e: Emission)
    ensures Payloads(emitted + [e]) == Payloads(emitted) + e.Payload()
  {
    assert (emitted + [e])[..|emitted|] == emitted;
  }

  /** One more frame cut off the rest stays within the batch framing of everything received. */
  lemma FrameIsNext(received: string, framed: seq<Frame>, rest: string, frame: Frame, maxBody: nat)
    requires Cuts(received, framed, rest, maxBody)
    requires BatchFrames(rest, maxBody) != [] && BatchFrames(rest, maxBody)[0] == frame
    ensures framed + [frame] <= BatchFrames(received, maxBody)
  {
    hide Cuts, BatchFrames;
    CutsBatch(received, framed, rest, maxBody);
    var batch := BatchFrames(rest, maxBody);
    assert batch == [frame] + batch[1..];
    assert framed + batch == (framed + [frame]) + batch[1..];
  }

  lemma InOrderNext(w: World, h: History, frame: Frame, e: Emission)
    requires InOrder(w, h, false) && Answers(w, frame, e)
    ensures InOrder(w, h.(framed := h.framed + [frame], emitted := h.emitted + [e]), false)
  {
    hide Answers;
    var framed, emitted := h.framed + [frame], h.emitted + [e];
    forall k | 0 <= k < |emitted| ensures Answers(w, framed[k], emitted[k]) {
      if k < |h.emitted| {
        assert Answers(w, h.framed[k], h.emitted[k]);
      }
    }
  }

  lemma TextIsNonempty(statusCode: nat, text: string, keepAlive: bool, includeBody: bool)
    ensures TextResult(statusCode, text, keepAlive, includeBody).response != ""
  {
    hide Decimal.Print, HttpRoundTrip.RenderFields;
  }

  /** An immediate response to the next frame keeps the invariant. */
  lemma RespondKeeps(w: World, c: Connection, h: History, buffer: string, frame: Frame, result: Result, close: bool,
                     maxBody: nat)
    requires IsIdle(w, c.(readBuffer := buffer), h, maxBody) && c.body.NoBody?
    requires BatchFrames(buffer, maxBody) != [] && BatchFrames(buffer, maxBody)[0] == frame
    requires Answers(w, frame, Emission(RequestOf(frame), result, close, "")) && result.response != ""
    requires !close ==> Cuts(h.received, h.framed + [frame], c.readBuffer, maxBody) && |c.readBuffer| <= MAX_LEFTOVER
    ensures Kept(w, RespondNow(c, frame, result, close), h, maxBody)
  {
    hide BatchFrames, Cuts, Answers, IsShort, RequestOf, Payloads;
    var e := Emission(RequestOf(frame), result, close, "");
    var r := RespondNow(c, frame, result, close);
    FrameIsNext(h.received, h.framed, buffer, frame, maxBody);
    InOrderNext(w, h, frame, e);
    PayloadsNext(h.emitted, e);
    assert result.response + "" == result.response;
    assert Unsent(r.c) == result.response;
  }

  /** Handing the next request to the pool keeps the invariant. */
  lemma DispatchKeeps(w: World, c: Connection, h: History, buffer: string, request: Request, maxBody: nat)
    requires IsIdle(w, c.(readBuffer := buffer, responsePending := false), h, maxBody) && IsPending(c) && IsServed(request)
    requires BatchFrames(buffer, maxBody) != [] && BatchFrames(buffer, maxBody)[0] == Good(request)
    requires request.keepAlive ==>
               Cuts(h.received, h.framed + [Good(request)], c.readBuffer, maxBody) && |c.readBuffer| <= MAX_LEFTOVER
    ensures Kept(w, Dispatch(c, request), h, maxBody)
  {
    hide BatchFrames, Cuts, Answers, IsShort, IsServed;
    FrameIsNext(h.received, h.framed, buffer, Good(request), maxBody);
    assert Unsent(c) == "";
    assert h.wire + "" == h.wire;
  }

  lemma BatchStartsWith(buffer: string, maxBody: nat)
    ensures match FirstFrame(buffer, maxBody)
            case NeedMore => BatchFrames(buffer, maxBody) == []
            case HeaderOverflow => BatchFrames(buffer, maxBody) == [Reject413]
            case Malformed => BatchFrames(buffer, maxBody) == [Reject400]
            case BodyOverflow => BatchFrames(buffer, maxBody) == [Reject413]
            case Complete(request, _) =>
              BatchFrames(buffer, maxBody) != [] && BatchFrames(buffer, maxBody)[0] == Good(request)
  {
    hide FirstFrame;
  }

  /** The ways a handler may turn out that starts from an idle connection. */
  ghost predicate IdleKept(w: World, r: Reaction, c: Connection, h: History, maxBody: nat) {
    match r
    case Stay(c') => c' == c.(body := c'.body) && IsIdle(w, c', h, maxBody) && IsShort(c', maxBody)
    case _ => Kept(w, r, h, maxBody)
  }

  /** A complete request at the front of an idle buffer is taken off and answered or handed on. */
  lemma TakenKeeps(w: World, c: Connection, h: History, maxBody: nat, now: nat)
    requires IsIdle(w, c, h, maxBody) && FirstFrame(c.readBuffer, maxBody).Complete?
    requires |c.readBuffer| <= FirstFrame(c.readBuffer, maxBody).length + MAX_LEFTOVER
    ensures var frame := FirstFrame(c.readBuffer, maxBody);
            Kept(w, Taken(c, frame.request, frame.length, now), h, maxBody)
  {
    hide FirstFrame, Cuts, IsServed, Kept, IsShort;
    var buffer := c.readBuffer;
    var frame := FirstFrame(buffer, maxBody);
    var request, rest := frame.request, buffer[frame.length..];
    BatchStartsWith(buffer, maxBody);
    if request.keepAlive {
      CutsNext(h.received, h.framed, buffer, maxBody);
    }
    var c' := c.(body := NoBody, lastActive := now, readBuffer := rest);
    assert c'.(readBuffer := buffer) == c.(body := NoBody, lastActive := now);
    if IsServed(request) {
      DispatchKeeps(w, c'.(responsePending := true, interest := WantsNothing), h, buffer, request, maxBody);
    } else {
      TextIsNonempty(405, "Method Not Allowed", request.keepAlive, true);
      RespondKeeps(w, c', h, buffer, Good(request), NotAllowedResult(request), !request.keepAlive, maxBody);
    }
  }

  lemma ProcessKeeps(w: World, c: Connection, h: History, maxBody: nat, now: nat)
    requires IsIdle(w, c, h, maxBody) && IsHeaded(c, maxBody)
    requires FirstFrame(c.readBuffer, maxBody).Complete? ==>
               |c.readBuffer| <= FirstFrame(c.readBuffer, maxBody).length + MAX_LEFTOVER
    ensures IdleKept(w, Process(c, maxBody, now), c, h, maxBody)
  {
    hide FirstFrame, Cuts, Kept, IsHeaded, Process, IsShort, IsServed, InOrder, NoCloseBefore, Payloads, BatchFrames;
    ProcessMeans(c, maxBody, now);
    BatchStartsWith(c.readBuffer, maxBody);
    match FirstFrame(c.readBuffer, maxBody)
    case NeedMore =>
    case HeaderOverflow =>
    case Malformed =>
      TextIsNonempty(400, "Bad Request", false, true);
      RespondKeeps(w, c, h, c.readBuffer, Reject400, BadRequestResult(), true, maxBody);
    case BodyOverflow =>
      TextIsNonempty(413, "Payload Too Large", false, true);
      RespondKeeps(w, c, h, c.readBuffer, Reject413, TooLargeResult(), true, maxBody);
    case Complete(_, _) =>
      TakenKeeps(w, c, h, maxBody, now);
  }

  /** What a reading connection is while a chunk has just been appended. */
  lemma ChunkIsIdle(w: World, c: Connection, h: History, chunk: string, maxBody: nat, now: nat)
    requires h.received + chunk <= h.sent && Sound(w, c, h, maxBody) && IsReading(c)
    ensures IsIdle(w, c.(lastActive := now, readBuffer := c.readBuffer + chunk),
                   h.(received := h.received + chunk), maxBody)
  {
    hide Answers, Payloads, BatchFrames, Cuts, IsShort, NoCloseBefore;
    CutsReceive(h.received, h.framed, c.readBuffer, chunk, maxBody);
    NothingUnsent(c);
    assert h.wire + "" == h.wire;
  }

  lemma IdleReadingIsSound(w: World, c: Connection, h: History, maxBody: nat)
    requires IsIdle(w, c, h, maxBody) && IsShort(c, maxBody) && c.interest == WantsRead
    ensures Sound(w, c, h, maxBody)
  {
    hide Answers, Payloads, BatchFrames, Cuts, IsShort, NoCloseBefore;
    CutsBatch(h.received, h.framed, c.readBuffer, maxBody);
    NothingUnsent(c);
    assert h.wire + "" == h.wire;
  }

  /** Awaiting a body, the head stays where it is; only the body grows. */
  lemma AwaitingIsHeaded(c: Connection, chunk: string, maxBody: nat, now: nat)
    requires IsShort(c, maxBody) && c.body.Awaiting?
    ensures IsHeaded(c.(lastActive := now, readBuffer := c.readBuffer + chunk), maxBody)
  {
    hide ParseRequest, CompleteHeaderLength, BodyLength;
    HeaderLengthStable(c.readBuffer, chunk);
    assert (c.readBuffer + chunk)[..c.body.headerLength] == c.readBuffer[..c.body.headerLength];
  }

  /** A request completed by one recv leaves less than that recv behind it. */
  lemma LeftoverOfChunk(c: Connection, chunk: string, maxBody: nat)
    requires IsShort(c, maxBody) && |chunk| <= MAX_LEFTOVER + 1
    requires FirstFrame(c.readBuffer + chunk, maxBody).Complete?
    ensures |c.readBuffer + chunk| <= FirstFrame(c.readBuffer + chunk, maxBody).length + MAX_LEFTOVER
  {
    hide FirstFrame, IsShort;
    ShortNeedsMore(c, maxBody);
    CompletedByLastBytes(c.readBuffer, chunk, maxBody);
  }

  /** The check for too many buffered body bytes never fires: the announced length was checked before. */
  lemma BodyNeverOverflows(c: Connection, maxBody: nat)
    requires c.body.Awaiting? && c.body.bodyLength <= maxBody
    requires |c.readBuffer| < c.body.headerLength + c.body.bodyLength
    ensures BodyBytes(c) <= maxBody
  {
  }

  /** recv: one chunk of at most 4096 bytes keeps the invariant, with the bytes added to the history. */
  lemma ChunkKeeps(w: World, c: Connection, h: History, chunk: string, maxBody: nat, now: nat)
    requires h.received + chunk <= h.sent && Sound(w, c, h, maxBody) && IsReading(c) && |chunk| <= MAX_LEFTOVER + 1
    ensures Kept(w, OnChunk(c, chunk, maxBody, now), h.(received := h.received + chunk), maxBody)
  {
    hide Process, IsIdle, Sound, IsHeaded, CompleteHeaderLength, FirstFrame, RespondNow, BodyBytes, Kept, IsShort;
    var c', h' := c.(lastActive := now, readBuffer := c.readBuffer + chunk), h.(received := h.received + chunk);
    ChunkIsIdle(w, c, h, chunk, maxBody, now);
    SoundReadingIsShort(w, c, h, maxBody);
    if c.body.Awaiting? {
      AwaitingIsHeaded(c, chunk, maxBody, now);
      if FirstFrame(c'.readBuffer, maxBody).Complete? {
        LeftoverOfChunk(c, chunk, maxBody);
      }
      AwaitingKeeps(w, c', h', maxBody, now);
    } else {
      if FirstFrame(c'.readBuffer, maxBody).Complete? {
        LeftoverOfChunk(c, chunk, maxBody);
      }
      HeadKeeps(w, c', h', maxBody, now);
    }
  }

  lemma SoundReadingIsShort(w: World, c: Connection, h: History, maxBody: nat)
    requires Sound(w, c, h, maxBody) && IsReading(c)
    ensures IsShort(c, maxBody)
  {
    hide IsShort, BatchFrames, Cuts, Answers, Payloads;
  }

  /** After a chunk, while a body is awaited. */
  lemma AwaitingKeeps(w: World, c: Connection, h: History, maxBody: nat, now: nat)
    requires IsIdle(w, c, h, maxBody) && IsHeaded(c, maxBody) && c.body.Awaiting? && c.interest == WantsRead
    requires FirstFrame(c.readBuffer, maxBody).Complete? ==>
               |c.readBuffer| <= FirstFrame(c.readBuffer, maxBody).length + MAX_LEFTOVER
    ensures var r := if |c.readBuffer| >= c.body.headerLength + c.body.bodyLength then Process(c, maxBody, now)
                     else if BodyBytes(c) > maxBody then
                       RespondNow(c.(body := NoBody), Reject413, TooLargeResult(), true)
                     else Stay(c);
            Kept(w, r, h, maxBody)
  {
    hide IsIdle, Sound, CompleteHeaderLength, FirstFrame, RespondNow, ParseRequest, BodyBytes, Process;
    ProcessKeeps(w, c, h, maxBody, now);
    if |c.readBuffer| >= c.body.headerLength + c.body.bodyLength {
      StayIsSound(w, Process(c, maxBody, now), c, h, maxBody);
    } else {
      BodyNeverOverflows(c, maxBody);
      IdleReadingIsSound(w, c, h, maxBody);
    }
  }

  /** Staying idle with a short buffer and the read interest is sound. */
  lemma StayIsSound(w: World, r: Reaction, c: Connection, h: History, maxBody: nat)
    requires IdleKept(w, r, c, h, maxBody) && c.interest == WantsRead
    ensures Kept(w, r, h, maxBody)
  {
    hide IsIdle, Sound, IsShort, SoundHistory, IsPending, IsServed;
    if r.Stay? {
      IdleReadingIsSound(w, r.c, h, maxBody);
    }
  }

  /** After a chunk, while no head is known yet. */
  lemma HeadKeeps(w: World, c: Connection, h: History, maxBody: nat, now: nat)
    requires IsIdle(w, c, h, maxBody) && c.body.NoBody? && c.interest == WantsRead
    requires FirstFrame(c.readBuffer, maxBody).Complete? ==>
               |c.readBuffer| <= FirstFrame(c.readBuffer, maxBody).length + MAX_LEFTOVER
    ensures var r := if HeaderTooLarge(c.readBuffer) then RespondNow(c, Reject413, TooLargeResult(), true)
                     else if CompleteHeaderLength(c.readBuffer).Some? then Process(c, maxBody, now)
                     else Stay(c);
            Kept(w, r, h, maxBody)
  {
    hide IsIdle, Sound, CompleteHeaderLength, RespondNow, ParseRequest, Process, FirstFrame, Kept;
    if HeaderTooLarge(c.readBuffer) {
      OverflowIsFirst(c.readBuffer, maxBody);
      BatchStartsWith(c.readBuffer, maxBody);
      TextIsNonempty(413, "Payload Too Large", false, true);
      SameBuffer(c);
      RespondKeeps(w, c, h, c.readBuffer, Reject413, TooLargeResult(), true, maxBody);
    } else if CompleteHeaderLength(c.readBuffer).Some? {
      ProcessKeeps(w, c, h, maxBody, now);
      StayIsSound(w, Process(c, maxBody, now), c, h, maxBody);
    } else {
      IdleReadingIsSound(w, c, h, maxBody);
      StayKept(w, c, h, maxBody);
    }
  }

  lemma StayKept(w: World, c: Connection, h: History, maxBody: nat)
    requires Sound(w, c, h, maxBody)
    ensures Kept(w, Stay(c), h, maxBody)
  {
    hide Sound;
  }

  lemma SameBuffer(c: Connection)
    ensures c.(readBuffer := c.readBuffer) == c
  {
  }

  lemma OverflowIsFirst(buffer: string, maxBody: nat)
    requires HeaderTooLarge(buffer)
    ensures FirstFrame(buffer, maxBody).HeaderOverflow?
  {
    hide CompleteHeaderLength, ParseRequest;
  }

  /** A connection whose last byte has just been written: everything is answered and sent. */
  ghost predicate IsWritten(w: World, c: Connection, h: History, maxBody: nat) {
    && !c.responsePending && c.writeBuffer == "" && !c.transfer.Active() && c.body.NoBody?
    && h.received <= h.sent
    && InOrder(w, h, false)
    && h.wire == Payloads(h.emitted)
    && h.framed <= BatchFrames(h.received, maxBody)
    && NoCloseBefore(h.emitted, |h.emitted| - 1)
    && (!c.closeAfterWrite ==>
          && Cuts(h.received, h.framed, c.readBuffer, maxBody) && |c.readBuffer| <= MAX_LEFTOVER
          && NoCloseBefore(h.emitted, |h.emitted|))
  }

  lemma WrittenHistory(w: World, c: Connection, h: History, maxBody: nat)
    requires IsWritten(w, c, h, maxBody)
    ensures SoundHistory(w, h, maxBody)
  {
    hide Answers, Payloads, BatchFrames, Cuts;
  }

  /** With less than one chunk left over, no head can be too large. */
  lemma LeftoverIsSmall(buffer: string)
    requires |buffer| <= MAX_LEFTOVER
    ensures !HeaderTooLarge(buffer)
  {
    hide CompleteHeaderLength;
  }

  /** After the last byte: close, or frame the next pipelined request, or read on. */
  lemma AfterWriteKeeps(w: World, c: Connection, h: History, maxBody: nat, now: nat)
    requires IsWritten(w, c, h, maxBody)
    ensures Kept(w, AfterWrite(c, maxBody, now), h, maxBody)
  {
    hide SoundHistory, Sound, Process, CompleteHeaderLength, HeaderTooLarge, IsShort, Answers, Cuts, BatchFrames;
    hide NoCloseBefore, InOrder, FirstFrame, Kept, IsHeaded, IdleKept;
    var c' := c.(transfer := NO_TRANSFER);
    if c'.closeAfterWrite {
      WrittenHistory(w, c, h, maxBody);
      DropKept(w, h, maxBody);
    } else {
      LeftoverIsSmall(c'.readBuffer);
      if CompleteHeaderLength(c'.readBuffer).Some? {
        HeadedByLeftover(c', maxBody);
        ProcessKeeps(w, c', h, maxBody, now);
        RearmKeeps(w, Process(c', maxBody, now), c', h, maxBody);
      } else {
        RearmedIsSound(w, c', h, maxBody);
      }
    }
  }

  lemma DropKept(w: World, h: History, maxBody: nat)
    requires SoundHistory(w, h, maxBody)
    ensures Kept(w, Drop, h, maxBody)
  {
  }

  lemma HeadedByLeftover(c: Connection, maxBody: nat)
    requires CompleteHeaderLength(c.readBuffer).Some? && |c.readBuffer| <= MAX_LEFTOVER && c.body.NoBody?
    ensures IsHeaded(c, maxBody)
  {
    hide CompleteHeaderLength, ParseRequest;
  }

  lemma RearmKeeps(w: World, r: Reaction, c: Connection, h: History, maxBody: nat)
    requires IdleKept(w, r, c, h, maxBody)
    ensures Kept(w, match r case Stay(c') => Rearm(c'.(interest := WantsRead)) case other => other, h, maxBody)
  {
    hide Sound, IsShort, SoundHistory, IsPending, IsServed, Cuts, InOrder, NoCloseBefore, Payloads;
    if r.Stay? {
      SameExceptInterest(w, r.c, h, maxBody);
      IdleReadingIsSound(w, r.c.(interest := WantsRead), h, maxBody);
    }
  }

  lemma SameExceptInterest(w: World, c: Connection, h: History, maxBody: nat)
    requires IsIdle(w, c, h, maxBody) && IsShort(c, maxBody)
    ensures IsIdle(w, c.(interest := WantsRead), h, maxBody) && IsShort(c.(interest := WantsRead), maxBody)
  {
    hide InOrder, NoCloseBefore, Payloads, Cuts, CompleteHeaderLength, ParseRequest;
  }

  lemma RearmedIsSound(w: World, c: Connection, h: History, maxBody: nat)
    requires IsIdle(w, c, h, maxBody) && c.body.NoBody? && |c.readBuffer| <= MAX_LEFTOVER
    requires CompleteHeaderLength(c.readBuffer).None?
    ensures Kept(w, Rearm(c.(interest := WantsRead)), h, maxBody)
  {
    hide Sound, InOrder, NoCloseBefore, Payloads, Cuts, CompleteHeaderLength;
    SameExceptInterest(w, c, h, maxBody);
    IdleReadingIsSound(w, c.(interest := WantsRead), h, maxBody);
  }

  /** A writing connection that has nothing left to write is written. */
  lemma WritingDone(w: World, c: Connection, h: History, c': Connection, wire: string, maxBody: nat)
    requires Sound(w, c, h, maxBody) && IsWriting(c)
    requires c' == c.(writeBuffer := c'.writeBuffer, transfer := c'.transfer, lastActive := c'.lastActive)
    requires c'.writeBuffer == "" && !c'.transfer.Active()
    requires wire == Payloads(h.emitted)
    ensures IsWritten(w, c', h.(wire := wire), maxBody)
  {
    hide Answers, Payloads, BatchFrames, Cuts, IsShort;
  }

  /** A writing connection that has sent some bytes and has more to send stays sound. */
  lemma WritingGoesOn(w: World, c: Connection, h: History, c': Connection, wire: string, maxBody: nat)
    requires Sound(w, c, h, maxBody) && IsWriting(c)
    requires c' == c.(writeBuffer := c'.writeBuffer, transfer := c'.transfer, lastActive := c'.lastActive)
    requires c'.writeBuffer != "" || c'.transfer.Active()
    requires wire + Unsent(c') == Payloads(h.emitted)
    ensures Sound(w, c', h.(wire := wire), maxBody)
  {
    hide Answers, Payloads, BatchFrames, Cuts, IsShort, Unsent;
  }

  /** The bytes a send takes off the front of the write buffer. */
  lemma SentKeeps(w: World, c: Connection, h: History, n: nat, maxBody: nat, now: nat)
    requires Sound(w, c, h, maxBody) && IsWriting(c) && n <= |c.writeBuffer|
    ensures Kept(w, OnSent(c, n, maxBody, now), h.(wire := h.wire + c.writeBuffer[..n]), maxBody)
  {
    hide Sound, AfterWrite, Payloads, IsWritten, Kept;
    var c' := c.(writeBuffer := c.writeBuffer[n..], lastActive := now);
    var wire := h.wire + c.writeBuffer[..n];
    SoundWire(w, c, h, maxBody);
    assert c.writeBuffer == c.writeBuffer[..n] + c'.writeBuffer;
    assert wire + (c'.writeBuffer + c'.transfer.Rest()) == h.wire + (c.writeBuffer + c.transfer.Rest());
    if c'.writeBuffer == "" && !c'.transfer.Active() {
      NothingUnsent(c');
      assert wire + "" == wire;
      WritingDone(w, c, h, c', wire, maxBody);
      AfterWriteKeeps(w, c', h.(wire := wire), maxBody, now);
    } else {
      WritingGoesOn(w, c, h, c', wire, maxBody);
      StayKept(w, c', h.(wire := wire), maxBody);
    }
  }

  lemma SoundWire(w: World, c: Connection, h: History, maxBody: nat)
    requires Sound(w, c, h, maxBody)
    ensures h.wire + Unsent(c) == Payloads(h.emitted)
  {
    hide Payloads, Unsent, Answers, BatchFrames, Cuts, IsShort;
  }

  /** The bytes one sendfile of n bytes puts on the wire. */
  function FileBytes(t: FileTransfer, n: nat): string
    requires t.file.Some? && t.offset + n <= |t.file.value|
  {
    t.file.value[t.offset..t.offset + n]
  }

  lemma RestSplits(t: FileTransfer, n: nat)
    requires t.Active() && n <= t.size - t.sent && t.offset + n <= |t.file.value|
    ensures t.Rest() == FileBytes(t, n) + t.(offset := t.offset + n, sent := t.sent + n).Rest()
  {
    var t' := t.(offset := t.offset + n, sent := t.sent + n);
    var data := t.file.value;
    var end := if t.offset + (t.size - t.sent) < |data| then t.offset + (t.size - t.sent) else |data|;
    assert t.Rest() == data[t.offset..end];
    assert data[t.offset..end] == data[t.offset..t.offset + n] + data[t.offset + n..end];
  }

  lemma FileSentKeeps(w: World, c: Connection, h: History, n: nat, maxBody: nat, now: nat)
    requires Sound(w, c, h, maxBody) && IsWriting(c) && c.writeBuffer == ""
    requires c.transfer.Active() && n <= c.transfer.size - c.transfer.sent
    requires c.transfer.offset + n <= |c.transfer.file.value|
    ensures Kept(w, OnFileSent(c, n, maxBody, now), h.(wire := h.wire + FileBytes(c.transfer, n)), maxBody)
  {
    hide Sound, AfterWrite, Payloads, IsWritten, Kept, FileBytes;
    var t := c.transfer;
    var c' := c.(transfer := t.(offset := t.offset + n, sent := t.sent + n), lastActive := now);
    var wire := h.wire + FileBytes(t, n);
    SoundWire(w, c, h, maxBody);
    RestSplits(t, n);
    FileWireMoves(c, c', h.wire, FileBytes(t, n));
    if !c'.transfer.Active() {
      NothingUnsent(c');
      assert wire + "" == wire;
      WritingDone(w, c, h, c', wire, maxBody);
      AfterWriteKeeps(w, c', h.(wire := wire), maxBody, now);
    } else {
      WritingGoesOn(w, c, h, c', wire, maxBody);
      StayKept(w, c', h.(wire := wire), maxBody);
    }
  }

  lemma FileWireMoves(c: Connection, c': Connection, wire: string, bytes: string)
    requires c.writeBuffer == c'.writeBuffer == "" && c.transfer.Rest() == bytes + c'.transfer.Rest()
    ensures (wire + bytes) + Unsent(c') == wire + Unsent(c)
  {
    assert "" + c.transfer.Rest() == c.transfer.Rest();
    assert "" + c'.transfer.Rest() == c'.transfer.Rest();
  }

  /** A transfer past the end of its file has nothing left: giving it up loses no byte. */
  lemma FileEndKeeps(w: World, c: Connection, h: History, maxBody: nat, now: nat)
    requires Sound(w, c, h, maxBody) && IsWriting(c) && c.writeBuffer == ""
    requires c.transfer.Active() && c.transfer.offset >= |c.transfer.file.value|
    ensures Kept(w, OnFileEnd(c, maxBody, now), h, maxBody)
  {
    hide Sound, AfterWrite, Payloads, IsWritten, Kept;
    var c' := c.(transfer := NO_TRANSFER);
    SoundWire(w, c, h, maxBody);
    assert Unsent(c) == "";
    assert h.wire + "" == h.wire;
    assert h.(wire := h.wire) == h;
    WritingDone(w, c, h, c', h.wire, maxBody);
    AfterWriteKeeps(w, c', h, maxBody, now);
  }

  /** Every byte received or sent, and every request taken, puts off the idle close. */
  lemma ActivityIsNoted(c: Connection, chunk: string, n: nat, maxBody: nat, now: nat)
    requires n <= |c.writeBuffer|
    ensures OnChunk(c, chunk, maxBody, now).c.lastActive == now
    ensures !OnSent(c, n, maxBody, now).Drop? ==> OnSent(c, n, maxBody, now).c.lastActive == now
    ensures !OnFileSent(c, n, maxBody, now).Drop? ==> OnFileSent(c, n, maxBody, now).c.lastActive == now
  {
    hide Process, CompleteHeaderLength, HeaderTooLarge, BodyBytes, TooLargeResult;
    var t := c.transfer;
    ProcessNotes(c.(lastActive := now, readBuffer := c.readBuffer + chunk), maxBody, now);
    ProcessNotes(c.(writeBuffer := c.writeBuffer[n..], lastActive := now, transfer := NO_TRANSFER), maxBody, now);
    ProcessNotes(c.(lastActive := now, transfer := NO_TRANSFER), maxBody, now);
  }

  lemma ProcessNotes(c: Connection, maxBody: nat, now: nat)
    requires c.lastActive == now
    ensures !Process(c, maxBody, now).Drop? && Process(c, maxBody, now).c.lastActive == now
  {
    hide CompleteHeaderLength, ParseRequest, IsServed, TooLargeResult, BadRequestResult, NotAllowedResult;
  }

  /** The request a pending connection waits for. */
  function PendingRequest(h: History): Request
    requires h.framed != [] && h.framed[|h.framed| - 1].Good?
  {
    h.framed[|h.framed| - 1].request
  }

  lemma BuiltIsHonest(w: World, request: Request, result: Result)
    requires IsPossible(w) && BuiltFor(w, request, result)
    ensures IsHonest(result, Closes(request, result))
  {
    hide BuildResponse, IsHonest, IsPossible;
    var at :| result == BuildResponse(w, at, request);
    BuildIsHonest(w, at, request);
  }

  lemma TextSendsNoFile(statusCode: nat, text: string, keepAlive: bool, includeBody: bool)
    ensures !TextResult(statusCode, text, keepAlive, includeBody).sendFile
  {
    hide ToText;
  }

  lemma BuiltSendsFile(w: World, at: nat, request: Request)
    requires BuildResponse(w, at, request).sendFile
    ensures BuildResponse(w, at, request)
         == StaticFileResponse(w.file(at, QueryOf(request)), request.keepAlive, request.verb != "HEAD")
  {
    hide TextResult, HandshakeKey, IsWebSocketEndpoint, IsApiPath, StaticFileResponse, Base64.EncodeText, ToText, QueryOf;
    var includeBody := request.verb != "HEAD";
    TextSendsNoFile(500, "Internal Server Error", request.keepAlive, includeBody);
    TextSendsNoFile(400, "Bad Request", false, includeBody);
  }

  lemma StaticSendsFile(file: FileResult, keepAlive: bool, includeBody: bool)
    ensures var r := StaticFileResponse(file, keepAlive, includeBody);
            r.keepAlive == keepAlive && !r.closeAfterWrite
  {
    hide ToText, FoundHead, Decimal.Print, SetHeader, SetBody, NewResponse;
  }

  /** Only a GET of a static file is answered by sendfile, and then persistence follows the request. */
  lemma SendFileFollowsRequest(w: World, request: Request, result: Result)
    requires BuiltFor(w, request, result) && result.sendFile
    ensures Closes(request, result) == !result.keepAlive
  {
    hide BuildResponse, StaticFileResponse, QueryOf;
    var at :| result == BuildResponse(w, at, request);
    BuiltSendsFile(w, at, request);
    StaticSendsFile(w.file(at, QueryOf(request)), request.keepAlive, request.verb != "HEAD");
  }

  /** Every response a connection is given says truthfully whether the server closes after it. */
  lemma AnswerIsHonest(w: World, frame: Frame, e: Emission)
    requires IsPossible(w) && Answers(w, frame, e)
    ensures IsHonest(e.result, e.close)
  {
    hide BuildResponse, IsHonest, TextResult, Closes, IsServed, IsPossible, TransferOf;
    match frame
    case Reject400 => TextIsHonest(400, "Bad Request", false, true);
    case Reject413 => TextIsHonest(413, "Payload Too Large", false, true);
    case Good(request) =>
      TextIsHonest(405, "Method Not Allowed", request.keepAlive, true);
      TextIsHonest(503, "Service Unavailable", false, true);
      if built, delivered :| e == ServedAt(w, request, built, delivered) {
        ServedIsHonest(w, request, built, delivered);
      }
  }

  lemma ServedIsHonest(w: World, request: Request, built: nat, delivered: nat)
    requires IsPossible(w)
    ensures var e := ServedAt(w, request, built, delivered); IsHonest(e.result, e.close)
  {
    hide BuildResponse, IsHonest, TextResult, Closes, IsPossible, TransferOf, BuiltFor;
    var result := BuildResponse(w, built, request);
    BuiltAt(w, request, built);
    BuiltIsHonest(w, request, result);
    if result.sendFile && w.onDisk(delivered, result.filePath).None? {
      SendFileFollowsRequest(w, request, result);
      TextIsHonest(500, "Internal Server Error", result.keepAlive, true);
    }
  }

  lemma BuiltAt(w: World, request: Request, at: nat)
    ensures BuiltFor(w, request, BuildResponse(w, at, request))
  {
    hide BuildResponse;
  }

  lemma DeliveredIsNonempty(w: World, request: Request, result: Result, content: Option<string>)
    requires IsPossible(w) && BuiltFor(w, request, result)
    ensures Delivered(result, content).response != ""
  {
    hide BuiltFor, Announces, UpgradeResult, TextResult;
    BuiltIsHonest(w, request, result);
    TextIsNonempty(500, "Internal Server Error", result.keepAlive, true);
  }

  /** A delivered completion overwrites an empty write buffer and answers the pending request. */
  lemma DeliverKeeps(w: World, c: Connection, h: History, built: nat, delivered: nat, maxBody: nat)
    requires IsPossible(w) && Sound(w, c, h, maxBody) && IsPending(c)
    requires h.framed != [] && h.framed[|h.framed| - 1].Good?
    ensures var request := PendingRequest(h);
            var result := BuildResponse(w, built, request);
            Sound(w, Deliver(c, result, Closes(request, result), w.onDisk(delivered, result.filePath)),
                  h.(emitted := h.emitted + [ServedAt(w, request, built, delivered)]), maxBody)
  {
    hide BuiltFor, BatchFrames, Cuts, IsShort, Payloads, IsServed, TransferOf, Delivered, Closes, BuildResponse, IsPossible;
    var request := PendingRequest(h);
    var result := BuildResponse(w, built, request);
    var e := ServedAt(w, request, built, delivered);
    BuiltAt(w, request, built);
    DeliveredIsNonempty(w, request, result, w.onDisk(delivered, result.filePath));
    assert ServedBy(w, request, e);
    PayloadsNext(h.emitted, e);
    NothingUnsent(c);
    assert h.wire + "" == h.wire;
    AnswersPending(w, h, e);
    ClosesUnlessKept(request, result);
  }

  lemma ClosesUnlessKept(request: Request, result: Result)
    ensures !Closes(request, result) ==> request.keepAlive
  {
  }

  lemma AnswersPending(w: World, h: History, e: Emission)
    requires InOrder(w, h, true) && Answers(w, h.framed[|h.framed| - 1], e)
    ensures InOrder(w, h.(emitted := h.emitted + [e]), false)
  {
    hide Answers;
    var emitted := h.emitted + [e];
    forall k | 0 <= k < |emitted| ensures Answers(w, h.framed[k], emitted[k]) {
      if k < |h.emitted| {
        assert Answers(w, h.framed[k], h.emitted[k]);
      }
    }
  }

  /** The history once a pending request has been refused by the pool. */
  function AfterRefusal(h: History): History {
    h.(emitted := h.emitted + [Emission(Asked(h), UnavailableResult(), true, "")])
  }

  /** The request a history waits to see answered. */
  function Asked(h: History): Option<Request> {
    if h.framed != [] then RequestOf(h.framed[|h.framed| - 1]) else None
  }

  /** A task the pool refuses is answered with 503 at once. */
  lemma RefusedKeeps(w: World, c: Connection, h: History, maxBody: nat)
    requires Sound(w, c, h, maxBody) && IsPending(c)
    ensures Sound(w, Refused(c), AfterRefusal(h), maxBody)
  {
    hide BatchFrames, Cuts, IsShort, Payloads, IsServed, TextResult;
    var e := AfterRefusal(h).emitted[|h.emitted|];
    TextIsNonempty(503, "Service Unavailable", false, true);
    PayloadsNext(h.emitted, e);
    NothingUnsent(c);
    assert h.wire + "" == h.wire;
    assert e.result.response + "" == e.result.response;
    assert Unsent(Refused(c)) == e.result.response;
    AnswersPending(w, h, e);
  }

  /**
   * The checks that never fire: a reading connection never buffers too many body bytes,
   * and after a response that keeps the connection open there is no body state and no
   * oversized head, and whatever head is there is within the parser's own limits.
   */
  lemma LateChecksAreUnreachable(w: World, c: Connection, h: History, chunk: string, maxBody: nat)
    requires Sound(w, c, h, maxBody)
    ensures IsReading(c) && c.body.Awaiting? && ReadsOn(c, chunk) ==>
              BodyBytes(c.(readBuffer := c.readBuffer + chunk)) <= maxBody
    ensures IsWriting(c) && !c.closeAfterWrite ==> c.body.NoBody? && !HeaderTooLarge(c.readBuffer)
    ensures IsReading(c) && c.body.Awaiting? ==> c.body.headerLength <= MAX_LENGTH
  {
    hide Answers, Payloads, BatchFrames, Cuts, CompleteHeaderLength, ParseRequest;
    if IsWriting(c) && !c.closeAfterWrite {
      LeftoverIsSmall(c.readBuffer);
    }
  }
}
