/**
 * What every reachable state of a connection keeps: its mode, the responses it has
 * been given, the bytes on the wire and the frames cut from the bytes received.
 */
module ConnectionSafety {
  import opened Options
  import opened HttpParser
  import opened Framing
  import opened HttpResponses
  import opened Responder
  import opened Connections

  /** What has happened on a connection since it was accepted; `sent` is what its client has sent. */
  datatype History = History(
    sent: string,
    received: string,
    framed: seq<Frame>,
    emitted: seq<Emission>,
    wire: string)
  {
    /** What the client has sent and the server has not read. */
    function Unread(): string
      requires received <= sent
    {
      sent[|received|..]
    }
  }

  const NO_HISTORY := History("", "", [], [], "")

  /** The history after a reaction. */
  function Record(h: History, r: Reaction): History {
    match r
    case Respond(_, frame, emission) => h.(framed := h.framed + [frame], emitted := h.emitted + [emission])
    case Dispatch(_, request) => h.(framed := h.framed + [Good(request)])
    case _ => h
  }

  /** The result is what buildResponse returns for this very request at some moment. */
  ghost predicate BuiltFor(w: World, request: Request, result: Result) {
    exists at :: result == BuildResponse(w, at, request)
  }

  /** The response delivered for a request whose answer was built at one moment and its file opened at another. */
  function ServedAt(w: World, request: Request, built: nat, delivered: nat): Emission {
    var result := BuildResponse(w, built, request);
    EmissionOf(request, result, Closes(request, result), w.onDisk(delivered, result.filePath))
  }

  ghost predicate ServedBy(w: World, request: Request, e: Emission) {
    exists built, delivered :: e == ServedAt(w, request, built, delivered)
  }

  /** A response answers a frame: it was made for that request, or is the refusal the frame calls for. */
  ghost predicate Answers(w: World, f: Frame, e: Emission) {
    match f
    case Reject400 => e == Emission(None, BadRequestResult(), true, "")
    case Reject413 => e == Emission(None, TooLargeResult(), true, "")
    case Good(request) =>
      || (!IsServed(request) && e == Emission(Some(request), NotAllowedResult(request), !request.keepAlive, ""))
      || (IsServed(request) && e == Emission(Some(request), UnavailableResult(), true, ""))
      || (IsServed(request) && ServedBy(w, request, e))
  }

  /** The bytes of all responses given so far, in order. */
  function Payloads(emitted: seq<Emission>): string {
    if emitted == [] then "" else Payloads(emitted[..|emitted| - 1]) + emitted[|emitted| - 1].Payload()
  }

  function Unsent(c: Connection): string { c.writeBuffer + c.transfer.Rest() }

  predicate IsReading(c: Connection) {
    c.interest == WantsRead && c.writeBuffer == "" && !c.transfer.Active() && !c.responsePending
  }

  predicate IsPending(c: Connection) {
    c.interest == WantsNothing && c.writeBuffer == "" && !c.transfer.Active() && c.responsePending && c.body.NoBody?
  }

  predicate IsWriting(c: Connection) {
    c.interest == WantsWrite && (c.writeBuffer != "" || c.transfer.Active()) && !c.responsePending && c.body.NoBody?
  }

  /** A reading connection is short of a request: its bytes frame nothing yet, and its body state says why. */
  predicate IsShort(c: Connection, maxBody: nat) {
    var head := CompleteHeaderLength(c.readBuffer);
    match c.body
    case NoBody => head.None? && |c.readBuffer| <= MAX_REQUEST_HEADER_SIZE
    case Awaiting(headerLength, bodyLength, request) =>
      && head == Some(headerLength) && headerLength <= MAX_REQUEST_HEADER_SIZE
      && ParseRequest(c.readBuffer[..headerLength]) == Some(request)
      && bodyLength == BodyLength(request) <= maxBody
      && |c.readBuffer| < headerLength + bodyLength
  }

  /** Bytes received beyond a request that keeps the connection open: less than one recv. */
  const MAX_LEFTOVER: nat := 4095

  /** The last request framed keeps the connection open. */
  predicate LastKeepsOpen(framed: seq<Frame>) {
    framed != [] && framed[|framed| - 1].Good? && framed[|framed| - 1].request.keepAlive
  }

  /** Whether another request may still be framed. */
  predicate Continues(c: Connection, h: History) {
    if c.responsePending then LastKeepsOpen(h.framed) else IsReading(c) || !c.closeAfterWrite
  }

  /** The k-th response answers the k-th frame; only a pending request is still unanswered. */
  ghost predicate InOrder(w: World, h: History, pending: bool) {
    && |h.framed| == |h.emitted| + (if pending then 1 else 0)
    && forall k :: 0 <= k < |h.emitted| ==> Answers(w, h.framed[k], h.emitted[k])
  }

  /** No response before the n-th closes. */
  predicate NoCloseBefore(emitted: seq<Emission>, n: int) {
    forall k :: 0 <= k < n && k < |emitted| ==> !emitted[k].close
  }

  ghost predicate CloseIsLast(c: Connection, h: History) {
    if IsWriting(c) then
      && h.emitted != [] && h.emitted[|h.emitted| - 1].close == c.closeAfterWrite
      && NoCloseBefore(h.emitted, |h.emitted| - 1)
    else NoCloseBefore(h.emitted, |h.emitted|)
  }

  ghost predicate Framed(c: Connection, h: History, maxBody: nat) {
    && h.framed <= BatchFrames(h.received, maxBody)
    && (Continues(c, h) ==> Cuts(h.received, h.framed, c.readBuffer, maxBody))
    && (IsReading(c) ==> IsShort(c, maxBody))
    && (!IsReading(c) && Continues(c, h) ==> |c.readBuffer| <= MAX_LEFTOVER)
  }

  ghost predicate PendingIsServed(c: Connection, h: History) {
    c.responsePending ==> h.framed != [] && h.framed[|h.framed| - 1].Good? && IsServed(h.framed[|h.framed| - 1].request)
  }

  /** The invariant of a live connection and its history. */
  ghost predicate Sound(w: World, c: Connection, h: History, maxBody: nat) {
    && (IsReading(c) || IsPending(c) || IsWriting(c))
    && h.received <= h.sent
    && InOrder(w, h, c.responsePending)
    && PendingIsServed(c, h)
    && h.wire + Unsent(c) == Payloads(h.emitted)
    && Framed(c, h, maxBody)
    && CloseIsLast(c, h)
  }

  /** What holds of every connection id for ever, also once the connection is gone. */
  ghost predicate SoundHistory(w: World, h: History, maxBody: nat) {
    && h.received <= h.sent
    && |h.emitted| <= |h.framed| <= |h.emitted| + 1
    && (forall k :: 0 <= k < |h.emitted| ==> Answers(w, h.framed[k], h.emitted[k]))
    && h.wire <= Payloads(h.emitted)
    && h.framed <= BatchFrames(h.received, maxBody)
    && NoCloseBefore(h.emitted, |h.framed| - 1)
  }

  lemma SoundGivesHistory(w: World, c: Connection, h: History, maxBody: nat)
    requires Sound(w, c, h, maxBody)
    ensures SoundHistory(w, h, maxBody)
  {
    hide Answers, Payloads, BatchFrames, Cuts, IsShort;
  }

  lemma NewIsSound(w: World, id: nat, now: nat, maxBody: nat)
    ensures Sound(w, NewConnection(id, now), NO_HISTORY, maxBody)
  {
  }

  /** In a reading connection everything received that can be framed has been framed and answered. */
  lemma ReadingIsComplete(w: World, c: Connection, h: History, maxBody: nat)
    requires Sound(w, c, h, maxBody) && IsReading(c)
    ensures h.framed == BatchFrames(h.received, maxBody)
    ensures |h.emitted| == |h.framed| && h.wire == Payloads(h.emitted)
  {
    hide Answers, Payloads, FirstFrame, Cuts, IsShort;
    CutsBatch(h.received, h.framed, c.readBuffer, maxBody);
    ShortNeedsMore(c, maxBody);
    assert BatchFrames(c.readBuffer, maxBody) == [];
    assert h.framed + [] == h.framed;
    NothingUnsent(c);
    assert h.wire + "" == h.wire;
  }

  lemma NothingUnsent(c: Connection)
    requires c.writeBuffer == "" && !c.transfer.Active()
    ensures Unsent(c) == ""
  {
  }

  lemma ShortNeedsMore(c: Connection, maxBody: nat)
    requires IsShort(c, maxBody)
    ensures FirstFrame(c.readBuffer, maxBody).NeedMore?
  {
    hide ParseRequest, CompleteHeaderLength;
  }
}
