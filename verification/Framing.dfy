/**
 * Cutting a byte stream into requests: the incremental test on a growing buffer
 * (completeHeaderLength and its callers) and the batch framing of a whole stream.
 */
module Framing {
  import opened Options
  import opened Text
  import opened HttpParser

  const MAX_REQUEST_HEADER_SIZE: nat := 8192

  /** Length of the head up to and including its blank line, whichever delimiter comes first. */
  function CompleteHeaderLength(buffer: string): (r: Option<nat>)
    ensures r.Some? ==> 2 <= r.value <= |buffer|
  {
    var crlf, lf := Find(buffer, "\r\n\r\n", 0), Find(buffer, "\n\n", 0);
    if crlf.None? then (if lf.None? then None else Some(lf.value + 2))
    else if lf.None? || crlf.value < lf.value then Some(crlf.value + 4)
    else Some(lf.value + 2)
  }

  predicate HeaderTooLarge(buffer: string) {
    var length := CompleteHeaderLength(buffer);
    if length.Some? then length.value > MAX_REQUEST_HEADER_SIZE else |buffer| > MAX_REQUEST_HEADER_SIZE
  }

  /** Only POST announces a body; its length counts whether or not the limit allows it. */
  function BodyLength(request: Request): nat {
    if request.verb == "POST" then request.contentLength else 0
  }

  /** What the bytes at the front of a stream amount to. */
  datatype Outcome =
    | NeedMore
    | HeaderOverflow
    | Malformed
    | BodyOverflow
    | Complete(request: Request, length: nat)

  function FirstFrame(stream: string, maxBody: nat): (r: Outcome)
    ensures r.Complete? ==> 0 < r.length <= |stream|
  {
    var head := CompleteHeaderLength(stream);
    if HeaderTooLarge(stream) then HeaderOverflow else
    if head.None? then NeedMore else
    var parsed := ParseRequest(stream[..head.value]);
    if parsed.None? then Malformed else
    if BodyLength(parsed.value) > maxBody then BodyOverflow else
    var length := head.value + BodyLength(parsed.value);
    if |stream| < length then NeedMore
    else Complete(parsed.value.(body := stream[head.value..length]), length)
  }

  /** What the server answers: a request, or a stream it refuses to read further. */
  datatype Frame = Good(request: Request) | Reject400 | Reject413

  /** The reference: the requests of a whole stream, up to the first that ends the connection. */
  function BatchFrames(stream: string, maxBody: nat): seq<Frame>
    decreases |stream|
  {
    match FirstFrame(stream, maxBody)
    case NeedMore => []
    case HeaderOverflow => [Reject413]
    case Malformed => [Reject400]
    case BodyOverflow => [Reject413]
    case Complete(request, length) =>
      [Good(request)] + if request.keepAlive then BatchFrames(stream[length..], maxBody) else []
  }

  /** A found head length never changes when bytes are appended, for both delimiters together. */
  lemma HeaderLengthStable(b: string, x: string)
    requires CompleteHeaderLength(b).Some?
    ensures CompleteHeaderLength(b + x) == CompleteHeaderLength(b)
  {
    var crlf, lf := Find(b, "\r\n\r\n", 0), Find(b, "\n\n", 0);
    var crlf', lf' := Find(b + x, "\r\n\r\n", 0), Find(b + x, "\n\n", 0);
    if crlf.Some? {
      FindStable(b, x, "\r\n\r\n");
    } else if crlf'.Some? && crlf'.value + 4 <= |b| {
      FindInPrefix(b, x, "\r\n\r\n");
    }
    if lf.Some? {
      FindStable(b, x, "\n\n");
    } else if lf'.Some? && lf'.value + 2 <= |b| {
      FindInPrefix(b, x, "\n\n");
    }
    if crlf.None? && crlf'.Some? {
      NoOverlap(b + x, crlf'.value, lf.value);
    }
  }

  /** A CRLF blank line cannot start just before or inside an LF blank line. */
  lemma NoOverlap(s: string, crlf: nat, lf: nat)
    requires MatchAt(s, "\r\n\r\n", crlf) && MatchAt(s, "\n\n", lf)
    ensures crlf + 1 < lf || lf < crlf
  {
    assert s[crlf..crlf + 4][0] == s[crlf] == '\r';
    assert s[crlf..crlf + 4][2] == s[crlf + 2] == '\r';
    assert s[lf..lf + 2][0] == s[lf] == '\n';
    assert s[lf..lf + 2][1] == s[lf + 1] == '\n';
  }

  /** A head that ends inside a prefix is already complete there. */
  lemma HeaderLengthInPrefix(b: string, x: string)
    requires CompleteHeaderLength(b + x).Some? && CompleteHeaderLength(b + x).value <= |b|
    ensures CompleteHeaderLength(b) == CompleteHeaderLength(b + x)
  {
    var crlf, lf := Find(b + x, "\r\n\r\n", 0), Find(b + x, "\n\n", 0);
    if crlf.Some? && crlf.value + 4 <= |b| {
      FindInPrefix(b, x, "\r\n\r\n");
    }
    if lf.Some? && lf.value + 2 <= |b| {
      FindInPrefix(b, x, "\n\n");
    }
    HeaderLengthStable(b, x);
  }

  /** Once decided, the outcome of the first frame is the same for every longer stream. */
  lemma FirstFrameStable(b: string, x: string, maxBody: nat)
    requires !FirstFrame(b, maxBody).NeedMore?
    ensures FirstFrame(b + x, maxBody) == FirstFrame(b, maxBody)
  {
    hide ParseRequest;
    var head := CompleteHeaderLength(b);
    if head.Some? {
      HeaderLengthStable(b, x);
      assert (b + x)[..head.value] == b[..head.value];
      var outcome := FirstFrame(b, maxBody);
      if outcome.Complete? {
        assert (b + x)[head.value..outcome.length] == b[head.value..outcome.length];
      }
    } else {
      var head' := CompleteHeaderLength(b + x);
      if head'.Some? && head'.value <= |b| {
        HeaderLengthInPrefix(b, x);
      }
    }
  }

  /** A frame completed by the bytes x ends after the bytes that were not enough. */
  lemma CompletedByLastBytes(b: string, x: string, maxBody: nat)
    requires FirstFrame(b, maxBody).NeedMore? && FirstFrame(b + x, maxBody).Complete?
    ensures FirstFrame(b + x, maxBody).length > |b|
  {
    hide ParseRequest;
    var head := CompleteHeaderLength(b + x).value;
    if head <= |b| {
      HeaderLengthInPrefix(b, x);
      assert (b + x)[..head] == b[..head];
    }
  }

  /** Keep-open requests `frames` were cut off the front of `stream`, leaving `rest`. */
  ghost predicate Cuts(stream: string, frames: seq<Frame>, rest: string, maxBody: nat)
    decreases |frames|
  {
    if frames == [] then stream == rest else
    var outcome := FirstFrame(stream, maxBody);
    && outcome.Complete?
    && frames[0] == Good(outcome.request)
    && outcome.request.keepAlive
    && Cuts(stream[outcome.length..], frames[1..], rest, maxBody)
  }

  /** Bytes that arrive later join the rest and leave the frames cut so far as they are. */
  lemma {:induction false} CutsReceive(stream: string, frames: seq<Frame>, rest: string, x: string, maxBody: nat)
    requires Cuts(stream, frames, rest, maxBody)
    ensures Cuts(stream + x, frames, rest + x, maxBody)
    decreases |frames|
  {
    hide FirstFrame;
    if frames != [] {
      var length := FirstFrame(stream, maxBody).length;
      FirstFrameStable(stream, x, maxBody);
      assert (stream + x)[length..] == stream[length..] + x;
      CutsReceive(stream[length..], frames[1..], rest, x, maxBody);
    }
  }

  /** One more keep-open request cut off the rest extends the frames. */
  lemma {:induction false} CutsNext(stream: string, frames: seq<Frame>, rest: string, maxBody: nat)
    requires Cuts(stream, frames, rest, maxBody)
    requires FirstFrame(rest, maxBody).Complete? && FirstFrame(rest, maxBody).request.keepAlive
    ensures var next := FirstFrame(rest, maxBody);
            Cuts(stream, frames + [Good(next.request)], rest[next.length..], maxBody)
    decreases |frames|
  {
    var next := FirstFrame(rest, maxBody);
    hide FirstFrame;
    var more := [Good(next.request)];
    if frames == [] {
      assert more[1..] == [] && [] + more == more;
    } else {
      CutsNext(stream[FirstFrame(stream, maxBody).length..], frames[1..], rest, maxBody);
      assert (frames + more)[1..] == frames[1..] + more;
    }
  }

  /** The batch framing of a stream is the frames cut so far and then the framing of the rest. */
  lemma {:induction false} CutsBatch(stream: string, frames: seq<Frame>, rest: string, maxBody: nat)
    requires Cuts(stream, frames, rest, maxBody)
    ensures BatchFrames(stream, maxBody) == frames + BatchFrames(rest, maxBody)
    decreases |frames|
  {
    hide FirstFrame;
    if frames != [] {
      var tail := stream[FirstFrame(stream, maxBody).length..];
      CutsBatch(tail, frames[1..], rest, maxBody);
      assert BatchFrames(stream, maxBody) == [frames[0]] + BatchFrames(tail, maxBody);
      HeadAndTail(frames, BatchFrames(rest, maxBody));
    }
  }

  lemma HeadAndTail(frames: seq<Frame>, more: seq<Frame>)
    requires frames != []
    ensures [frames[0]] + (frames[1..] + more) == frames + more
  {
  }

  /** More bytes never change the frames a stream already has. */
  lemma {:induction false} BatchFramesGrow(stream: string, x: string, maxBody: nat)
    ensures BatchFrames(stream, maxBody) <= BatchFrames(stream + x, maxBody)
    decreases |stream|
  {
    hide FirstFrame;
    var outcome := FirstFrame(stream, maxBody);
    if !outcome.NeedMore? {
      FirstFrameStable(stream, x, maxBody);
      if outcome.Complete? && outcome.request.keepAlive {
        var length := outcome.length;
        assert (stream + x)[length..] == stream[length..] + x;
        BatchFramesGrow(stream[length..], x, maxBody);
      }
    }
  }
}
