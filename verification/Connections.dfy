/**
 * One plain-HTTP connection of the event loop: its buffers, its body state, its file
 * transfer, and what each handler does to them.  Handlers are functions from a
 * connection to a reaction; the event loop turns a reaction into epoll and pool calls.
 */
module Connections {
  import opened Options
  import opened HttpParser
  import opened Framing
  import opened HttpResponses
  import opened StaticFiles
  import opened Responder

  /** A file being sent; the kernel advances `offset` together with `sent`. */
  datatype FileTransfer = FileTransfer(file: Option<string>, offset: nat, size: nat, sent: nat) {
    predicate Active() { file.Some? && sent < size }

    /** What is still to be sent of the bytes the file has. */
    function Rest(): string {
      if Active() then Slice(file.value, offset, size - sent) else ""
    }
  }

  const NO_TRANSFER := FileTransfer(None, 0, 0, 0)

  datatype BodyState = NoBody | Awaiting(headerLength: nat, bodyLength: nat, request: Request)

  /** The epoll mask: always RDHUP, with IN, with OUT, or alone. */
  datatype Interest = WantsRead | WantsNothing | WantsWrite

  datatype Connection = Connection(
    id: nat,
    readBuffer: string,
    writeBuffer: string,
    transfer: FileTransfer,
    body: BodyState,
    closeAfterWrite: bool,
    responsePending: bool,
    lastActive: nat,
    interest: Interest)

  function NewConnection(id: nat, now: nat): Connection {
    Connection(id, "", "", NO_TRANSFER, NoBody, true, false, now, WantsRead)
  }

  /** A response given to a connection: the request it was made for, the result, the close decision and the file bytes. */
  datatype Emission = Emission(asked: Option<Request>, result: Result, close: bool, attachment: string) {
    function Payload(): string { result.response + attachment }
  }

  datatype Reaction =
    | Stay(c: Connection)
    | Respond(c: Connection, frame: Frame, emission: Emission)
    | Dispatch(c: Connection, request: Request)
    | Rearm(c: Connection)
    | Drop

  /** Put an immediate response into the write buffer and ask for writability. */
  function Write(c: Connection, result: Result, close: bool): Connection {
    c.(writeBuffer := result.response, closeAfterWrite := close, interest := WantsWrite)
  }

  function RequestOf(frame: Frame): Option<Request> {
    if frame.Good? then Some(frame.request) else None
  }

  function RespondNow(c: Connection, frame: Frame, result: Result, close: bool): Reaction {
    Respond(Write(c, result, close), frame, Emission(RequestOf(frame), result, close, ""))
  }

  function TooLargeResult(): Result { TextResult(413, "Payload Too Large", false, true) }

  function BadRequestResult(): Result { TextResult(400, "Bad Request", false, true) }

  function UnavailableResult(): Result { TextResult(503, "Service Unavailable", false, true) }

  function NotAllowedResult(request: Request): Result { TextResult(405, "Method Not Allowed", request.keepAlive, true) }

  predicate IsServed(request: Request) {
    IsApiPath(request.path) || request.verb == "GET" || request.verb == "HEAD"
  }

  /** The second half of processReadBuffer, once the head is parsed. */
  function ProcessBody(c: Connection, now: nat): Reaction
    requires c.body.Awaiting?
  {
    var length := c.body.headerLength + c.body.bodyLength;
    if |c.readBuffer| < length then Stay(c) else
    var request := c.body.request.(body := c.readBuffer[c.body.headerLength..length]);
    var c' := c.(body := NoBody, lastActive := now, readBuffer := c.readBuffer[length..]);
    if !IsServed(request) then RespondNow(c', Good(request), NotAllowedResult(request), !request.keepAlive)
    else Dispatch(c'.(responsePending := true, interest := WantsNothing), request)
  }

  /** processReadBuffer. */
  function Process(c: Connection, maxBody: nat, now: nat): Reaction {
    if c.body.Awaiting? then ProcessBody(c, now) else
    var head := CompleteHeaderLength(c.readBuffer);
    if head.None? then Stay(c) else
    var parsed := ParseRequest(c.readBuffer[..head.value]);
    if parsed.None? then RespondNow(c, Reject400, BadRequestResult(), true) else
    if BodyLength(parsed.value) > maxBody then RespondNow(c, Reject413, TooLargeResult(), true) else
    ProcessBody(c.(body := Awaiting(head.value, BodyLength(parsed.value), parsed.value)), now)
  }

  function BodyBytes(c: Connection): nat
    requires c.body.Awaiting?
  {
    if |c.readBuffer| > c.body.headerLength then |c.readBuffer| - c.body.headerLength else 0
  }

  /** readFromConnection, after recv has returned a chunk. */
  function OnChunk(c: Connection, chunk: string, maxBody: nat, now: nat): Reaction {
    var c' := c.(lastActive := now, readBuffer := c.readBuffer + chunk);
    if c'.body.NoBody? && HeaderTooLarge(c'.readBuffer) then RespondNow(c', Reject413, TooLargeResult(), true) else
    if c'.body.Awaiting? then
      if |c'.readBuffer| >= c'.body.headerLength + c'.body.bodyLength then Process(c', maxBody, now)
      else if BodyBytes(c') > maxBody then RespondNow(c'.(body := NoBody), Reject413, TooLargeResult(), true)
      else Stay(c')
    else if CompleteHeaderLength(c'.readBuffer).Some? then Process(c', maxBody, now)
    else Stay(c')
  }

  /** Whether the recv loop goes on after this chunk: neither a response nor processReadBuffer ended it. */
  predicate ReadsOn(c: Connection, chunk: string) {
    var buffer := c.readBuffer + chunk;
    if c.body.Awaiting? then |buffer| < c.body.headerLength + c.body.bodyLength
    else CompleteHeaderLength(buffer).None?
  }

  /** writeToConnection, after the write buffer and the file are done. */
  function AfterWrite(c: Connection, maxBody: nat, now: nat): Reaction {
    var c' := c.(transfer := NO_TRANSFER);
    if c'.closeAfterWrite then Drop else
    if c'.body.Awaiting? && |c'.readBuffer| >= c'.body.headerLength + c'.body.bodyLength then Process(c', maxBody, now)
    else if c'.body.Awaiting? && BodyBytes(c') > maxBody then
      RespondNow(c'.(body := NoBody), Reject413, TooLargeResult(), true)
    else if c'.body.NoBody? && CompleteHeaderLength(c'.readBuffer).Some? then
      match Process(c', maxBody, now)
      case Stay(c'') => Rearm(c''.(interest := WantsRead))
      case other => other
    else if c'.body.NoBody? && HeaderTooLarge(c'.readBuffer) then RespondNow(c', Reject413, TooLargeResult(), true)
    else Rearm(c'.(interest := WantsRead))
  }

  /** One send of n bytes of the write buffer. */
  function OnSent(c: Connection, n: nat, maxBody: nat, now: nat): Reaction
    requires n <= |c.writeBuffer|
  {
    var c' := c.(writeBuffer := c.writeBuffer[n..], lastActive := now);
    if c'.writeBuffer == "" && !c'.transfer.Active() then AfterWrite(c', maxBody, now) else Stay(c')
  }

  /** One sendfile of n bytes. */
  function OnFileSent(c: Connection, n: nat, maxBody: nat, now: nat): Reaction {
    var t := c.transfer;
    var c' := c.(transfer := t.(offset := t.offset + n, sent := t.sent + n), lastActive := now);
    if !c'.transfer.Active() then AfterWrite(c', maxBody, now) else Stay(c')
  }

  /** sendfile found the end of the file: the transfer is given up and the response counts as written. */
  function OnFileEnd(c: Connection, maxBody: nat, now: nat): Reaction {
    AfterWrite(c.(transfer := NO_TRANSFER), maxBody, now)
  }

  /** The result that is written when the file of a streamed answer was opened, or could not be. */
  function Delivered(result: Result, content: Option<string>): Result {
    if result.sendFile && content.None? then TextResult(500, "Internal Server Error", result.keepAlive, true) else result
  }

  function TransferOf(result: Result, content: Option<string>): FileTransfer {
    if result.sendFile && content.Some?
    then FileTransfer(content, result.fileOffset, result.fileTransferSize, 0) else NO_TRANSFER
  }

  function EmissionOf(request: Request, result: Result, close: bool, content: Option<string>): Emission {
    Emission(Some(request), Delivered(result, content), close, TransferOf(result, content).Rest())
  }

  /** handleCompletionEvent, for a completion that belongs to this connection. */
  function Deliver(c: Connection, result: Result, close: bool, content: Option<string>): Connection {
    c.(transfer := TransferOf(result, content),
       responsePending := false,
       writeBuffer := Delivered(result, content).response,
       closeAfterWrite := close,
       interest := WantsWrite)
  }

  /** processReadBuffer, when the pool refuses the task of a connection just made pending. */
  function Refused(c: Connection): Connection {
    Write(c.(responsePending := false), UnavailableResult(), true)
  }
}
