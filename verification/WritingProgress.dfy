/**
 * Writing comes to an end: as long as the kernel takes bytes, a response is written in at most
 * as many send and sendfile calls as it has bytes, whatever else happens in between.
 */
module WritingProgress {
  import opened HttpParser
  import opened Framing
  import opened Responder
  import opened Connections
  import opened ConnectionSafety
  import opened ConnectionSteps
  import opened Servers
  import opened ServerSafety
  import opened ServerSteps
  import ThreadPools

  /** The file ends before the transfer does, so that one more call is needed to find its end. */
  predicate EndsEarly(t: FileTransfer) {
    t.Active() && t.offset + (t.size - t.sent) > |t.file.value|
  }

  function CallsLeft(c: Connection): nat {
    |Unsent(c)| + if EndsEarly(c.transfer) then 1 else 0
  }

  /** The connection of this id is still writing the last of these responses. */
  ghost predicate StillWriting(s: Server, fd: int, id: nat, emitted: seq<Emission>) {
    && fd in s.connections && s.connections[fd].id == id && IsWriting(s.connections[fd])
    && HistoryOf(s, fd).emitted == emitted
  }

  predicate IsWrite(step: Step, fd: int) {
    match step
    case Send(to, _, _, _) => to == fd
    case SendFile(to, _, _, _) => to == fd
    case FileEnd(to, _, _) => to == fd
    case _ => false
  }

  lemma WritingHasCalls(c: Connection)
    requires IsWriting(c)
    ensures CallsLeft(c) > 0
  {
  }

  /** Some call can be made, of a single byte if the kernel takes no more. */
  lemma WritingGoesOn(s: Server, fd: int) returns (step: Step)
    requires s.loop.Polling? && fd in s.connections && IsWriting(s.connections[fd])
    ensures IsWrite(step, fd) && Enabled(s, step)
  {
    var c := s.connections[fd];
    if c.writeBuffer != "" {
      step := Send(fd, 1, 0, Epoll(true, true));
    } else if c.transfer.offset < |c.transfer.file.value| {
      step := SendFile(fd, 1, 0, Epoll(true, true));
    } else {
      step := FileEnd(fd, 0, Epoll(true, true));
    }
  }

  // ---- One call ----

  /** With everything written, no reaction goes on writing the same response. */
  lemma WrittenIsOver(c: Connection, maxBody: nat, now: nat)
    requires c.writeBuffer == ""
    ensures var r := AfterWrite(c, maxBody, now);
            r.Respond? || r.Drop? || r.Dispatch? || !IsWriting(r.c)
  {
    hide CompleteHeaderLength, ParseRequest, HeaderTooLarge, BodyBytes, TooLargeResult, BadRequestResult, NotAllowedResult;
    hide IsServed;
  }

  lemma DispatchIsPending(c: Connection, maxBody: nat, now: nat)
    ensures AfterWrite(c, maxBody, now).Dispatch? ==> AfterWrite(c, maxBody, now).c.responsePending
  {
    hide CompleteHeaderLength, ParseRequest, HeaderTooLarge, BodyBytes, TooLargeResult, BadRequestResult, NotAllowedResult;
    hide IsServed;
  }

  /** A reaction that responds, drops or hands over ends the response; any other keeps the history. */
  lemma ReactWrites(s: Server, fd: int, h: History, r: Reaction, epoll: Epoll, id: nat, emitted: seq<Emission>)
    requires fd in s.connections && IsFrom(r, s.connections[fd]) && h.emitted == emitted
    requires r.Dispatch? ==> r.c.responsePending
    requires StillWriting(React(s, fd, h, r, epoll), fd, id, emitted)
    ensures (r.Stay? || r.Rearm?) && React(s, fd, h, r, epoll).connections[fd] == r.c
  {
    hide UnavailableResult, ThreadPools.Push, ThreadPools.Accepts;
    assert r.Respond? ==> |Record(h, r).emitted| == |emitted| + 1;
    assert |AfterRefusal(Record(h, r)).emitted| == |Record(h, r).emitted| + 1;
  }

  /** Bytes taken by send are bytes less to write. */
  lemma SendLowers(s: Server, fd: int, count: nat, now: nat, epoll: Epoll, id: nat, emitted: seq<Emission>)
    requires StillWriting(s, fd, id, emitted) && Enabled(s, Send(fd, count, now, epoll))
    requires StillWriting(Sent(s, fd, count, now, epoll), fd, id, emitted)
    ensures CallsLeft(Sent(s, fd, count, now, epoll).connections[fd]) < CallsLeft(s.connections[fd])
  {
    hide AfterWrite, React, StillWriting;
    assert fd in s.connections && HistoryOf(s, fd).emitted == emitted by { WritingFacts(s, fd, id, emitted); }
    var c, h := s.connections[fd], HistoryOf(s, fd);
    var c' := c.(writeBuffer := c.writeBuffer[count..], lastActive := now);
    SentIsFrom(c, count, s.maxBody, now);
    DispatchIsPending(c', s.maxBody, now);
    ReactWrites(s, fd, h.(wire := h.wire + c.writeBuffer[..count]), OnSent(c, count, s.maxBody, now), epoll, id, emitted);
    WritingFacts(Sent(s, fd, count, now, epoll), fd, id, emitted);
    if c'.writeBuffer == "" && !c'.transfer.Active() {
      WrittenIsOver(c', s.maxBody, now);
    }
  }

  lemma WritingFacts(s: Server, fd: int, id: nat, emitted: seq<Emission>)
    requires StillWriting(s, fd, id, emitted)
    ensures fd in s.connections && IsWriting(s.connections[fd]) && HistoryOf(s, fd).emitted == emitted
    ensures s.connections[fd].id == id
  {
  }

  /** So are bytes taken by sendfile. */
  lemma SendFileLowers(s: Server, fd: int, count: nat, now: nat, epoll: Epoll, id: nat, emitted: seq<Emission>)
    requires StillWriting(s, fd, id, emitted) && Enabled(s, SendFile(fd, count, now, epoll))
    requires StillWriting(FileSent(s, fd, count, now, epoll), fd, id, emitted)
    ensures CallsLeft(FileSent(s, fd, count, now, epoll).connections[fd]) < CallsLeft(s.connections[fd])
  {
    hide AfterWrite, React, StillWriting, FileBytes;
    assert fd in s.connections && HistoryOf(s, fd).emitted == emitted by { WritingFacts(s, fd, id, emitted); }
    var c, h := s.connections[fd], HistoryOf(s, fd);
    var t := c.transfer;
    var c' := c.(transfer := t.(offset := t.offset + count, sent := t.sent + count), lastActive := now);
    FileSentIsFrom(c, count, s.maxBody, now);
    DispatchIsPending(c', s.maxBody, now);
    ReactWrites(s, fd, h.(wire := h.wire + FileBytes(t, count)), OnFileSent(c, count, s.maxBody, now), epoll, id, emitted);
    WritingFacts(FileSent(s, fd, count, now, epoll), fd, id, emitted);
    if !c'.transfer.Active() {
      WrittenIsOver(c', s.maxBody, now);
    }
  }

  /** The end of the file ends the response. */
  lemma FileEndEnds(s: Server, fd: int, now: nat, epoll: Epoll, id: nat, emitted: seq<Emission>)
    requires StillWriting(s, fd, id, emitted) && Enabled(s, FileEnd(fd, now, epoll))
    ensures !StillWriting(FileEnded(s, fd, now, epoll), fd, id, emitted)
  {
    hide AfterWrite, React, StillWriting;
    assert fd in s.connections && HistoryOf(s, fd).emitted == emitted by { WritingFacts(s, fd, id, emitted); }
    var c := s.connections[fd];
    if StillWriting(FileEnded(s, fd, now, epoll), fd, id, emitted) {
      FileSentIsFrom(c, 0, s.maxBody, now);
      DispatchIsPending(c.(transfer := NO_TRANSFER), s.maxBody, now);
      ReactWrites(s, fd, HistoryOf(s, fd), OnFileEnd(c, s.maxBody, now), epoll, id, emitted);
      WritingFacts(FileEnded(s, fd, now, epoll), fd, id, emitted);
      WrittenIsOver(c.(transfer := NO_TRANSFER), s.maxBody, now);
    }
  }

  lemma WriteLowers(s: Server, fd: int, step: Step, id: nat, emitted: seq<Emission>)
    requires Enabled(s, step) && IsWrite(step, fd) && StillWriting(s, fd, id, emitted)
    requires StillWriting(Apply(s, step), fd, id, emitted)
    ensures fd in s.connections && fd in Apply(s, step).connections
    ensures CallsLeft(Apply(s, step).connections[fd]) < CallsLeft(s.connections[fd])
  {
    hide StillWriting, CallsLeft, Sent, FileSent, FileEnded;
    WritingFacts(s, fd, id, emitted);
    WritingFacts(Apply(s, step), fd, id, emitted);
    match step {
      case Send(_, count, now, epoll) => SendLowers(s, fd, count, now, epoll, id, emitted);
      case SendFile(_, count, now, epoll) => SendFileLowers(s, fd, count, now, epoll, id, emitted);
      case FileEnd(_, now, epoll) => FileEndEnds(s, fd, now, epoll, id, emitted);
    }
  }

  // ---- Everything else ----

  lemma ReactLeavesOthers(s: Server, fd: int, h: History, r: Reaction, epoll: Epoll, other: int)
    requires fd in s.connections && other in s.connections && other != fd
    ensures var s' := React(s, fd, h, r, epoll); other in s'.connections && s'.connections[other] == s.connections[other]
  {
    hide Record, AfterRefusal, Refused, ThreadPools.Push, ThreadPools.Accepts;
  }

  /** Events of other connections, and those of this one that are not writes but leave it open, do not touch its buffers. */
  lemma EventLeavesWriting(s: Server, fd: int, step: Step)
    requires fd in s.connections && IsWriting(s.connections[fd]) && LoopEnabled(s, step) && !IsWrite(step, fd)
    ensures var s' := HandleEvent(s, step); fd in s'.connections ==> s'.connections[fd] == s.connections[fd]
  {
    hide React, OnChunk, OnSent, OnFileSent, OnFileEnd, FileBytes, MayReceive, AtFileEnd;
    match step
    case Receive(to, chunk, now, epoll) =>
      var h := HistoryOf(s, to);
      ReactLeavesOthers(s, to, h.(received := h.received + chunk), OnChunk(s.connections[to], chunk, s.maxBody, now), epoll, fd);
    case Send(to, count, now, epoll) =>
      var h, c := HistoryOf(s, to), s.connections[to];
      ReactLeavesOthers(s, to, h.(wire := h.wire + c.writeBuffer[..count]), OnSent(c, count, s.maxBody, now), epoll, fd);
    case SendFile(to, count, now, epoll) =>
      var h, c := HistoryOf(s, to), s.connections[to];
      ReactLeavesOthers(s, to, h.(wire := h.wire + FileBytes(c.transfer, count)), OnFileSent(c, count, s.maxBody, now), epoll, fd);
    case FileEnd(to, now, epoll) =>
      ReactLeavesOthers(s, to, HistoryOf(s, to), OnFileEnd(s.connections[to], s.maxBody, now), epoll, fd);
    case _ =>
  }

  /** A completion is never for a connection that writes. */
  lemma HandedLeavesWriting(s: Server, fd: int, at: nat, epollOk: bool)
    requires Inv(s) && s.loop.Delivering? && s.loop.batch != [] && fd in s.connections && IsWriting(s.connections[fd])
    ensures var s' := Handed(s, at, epollOk); fd in s'.connections && s'.connections[fd] == s.connections[fd]
  {
    hide Inv, Deliver, EmissionOf, AfterOne, BuiltFor, Closes;
    if IsFor(s.loop.batch[0], s.connections) {
      FrontAnswersPending(s);
    }
  }

  lemma OtherStepLeaves(s: Server, fd: int, step: Step)
    requires Inv(s) && Enabled(s, step) && !IsWrite(step, fd)
    requires fd in s.connections && IsWriting(s.connections[fd])
    ensures var s' := Apply(s, step); fd in s'.connections ==> s'.connections[fd] == s.connections[fd]
  {
    hide Inv, IsWrite, IsWriting, LoopEnabled, HandleEvent, Handed, BuildResponse, Closes, ThreadPools.MayNotify;
    match step
    case DeliverNext(at, epollOk) => HandedLeavesWriting(s, fd, at, epollOk);
    case ClientSends(_, _) =>
    case Drain =>
    case Swap =>
    case NotifyOne(_) =>
    case WakeUp(_) =>
    case Look(_) =>
    case Publish(_, _) =>
    case Signal(_) =>
    case _ => EventLeavesWriting(s, fd, step);
  }

  // ---- Runs ----

  /** All along the run the connection is still writing the same response. */
  ghost predicate KeepsWriting(s: Server, steps: seq<Step>, fd: int, id: nat, emitted: seq<Emission>)
    requires IsRun(s, steps)
    decreases |steps|
  {
    StillWriting(s, fd, id, emitted) && (steps == [] || KeepsWriting(Apply(s, steps[0]), steps[1..], fd, id, emitted))
  }

  function WritesAmong(steps: seq<Step>, fd: int): nat {
    if steps == [] then 0 else (if IsWrite(steps[0], fd) then 1 else 0) + WritesAmong(steps[1..], fd)
  }

  /**
   * A response does not outlast its bytes: while it is being written, fewer calls have been made
   * for it than it has bytes left at the start, with one more where its file ends early; other
   * clients, workers and completions take their steps in between.
   */
  lemma {:induction false} WritingEnds(s: Server, steps: seq<Step>, fd: int, id: nat, emitted: seq<Emission>)
    requires Inv(s) && IsRun(s, steps) && KeepsWriting(s, steps, fd, id, emitted)
    ensures fd in s.connections && WritesAmong(steps, fd) < CallsLeft(s.connections[fd])
    decreases |steps|
  {
    hide Inv, Apply, Enabled, CallsLeft, IsWrite, StillWriting;
    WritingFacts(s, fd, id, emitted);
    if steps == [] {
      WritingHasCalls(s.connections[fd]);
    } else {
      var s' := Apply(s, steps[0]);
      assert StillWriting(s', fd, id, emitted);
      WritingFacts(s', fd, id, emitted);
      StepKeeps(s, steps[0]);
      WritingEnds(s', steps[1..], fd, id, emitted);
      if IsWrite(steps[0], fd) {
        WriteLowers(s, fd, steps[0], id, emitted);
      } else {
        OtherStepLeaves(s, fd, steps[0]);
      }
    }
  }
}
