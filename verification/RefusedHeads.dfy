/**
 * HEAD requests the server refuses by itself: with 413 where the head is too long, and with 503
 * where the pool is full.  Either answer carries a body, and the client misreads the wire.
 */
module RefusedHeads {
  import opened Options
  import opened HttpParser
  import opened Framing
  import opened SentMethods
  import opened HttpRoundTrip
  import opened HttpResponses
  import opened Responder
  import opened Connections
  import opened ConnectionSafety
  import opened ConnectionSteps
  import opened Servers
  import opened ServerSteps
  import opened ServerTheorems
  import opened ShortBodies
  import opened Wires
  import ThreadPools

  // ---- Heads over the limit ----

  /** Of a head over the limit no part up to the limit is refused, and every longer part is. */
  lemma PartOfLongHead(raw: string, m: nat)
    requires CompleteHeaderLength(raw) == Some(|raw|) && m <= |raw| && MAX_REQUEST_HEADER_SIZE < |raw|
    ensures HeaderTooLarge(raw[..m]) <==> m > MAX_REQUEST_HEADER_SIZE
    ensures m < |raw| ==> CompleteHeaderLength(raw[..m]).None?
  {
    hide CompleteHeaderLength;
    assert raw[..m] + raw[m..] == raw;
    if m == |raw| {
      assert raw[..m] == raw;
    } else if CompleteHeaderLength(raw[..m]).Some? {
      HeaderLengthStable(raw[..m], raw[m..]);
    }
  }

  /** A HEAD whose head is over the limit is refused, whatever follows it, and the client knows it was a HEAD. */
  lemma LongHeadIsRefused(rl: RequestLine, fields: seq<Field>, x: string, maxBody: nat)
    requires IsHead(rl, fields) && rl.verb == "HEAD" && |Render(rl, fields)| > MAX_REQUEST_HEADER_SIZE
    ensures BatchFrames(Render(rl, fields) + x, maxBody) == [Reject413]
    ensures HeadFlags(Render(rl, fields) + x, maxBody) == [true]
  {
    hide CompleteHeaderLength, ParseRequest, IsHead, LineText, RenderFields;
    RenderedIsFramed(rl, fields, x);
    RenderedAsks(rl, fields, x);
  }

  /** The loop has read so many bytes of a long head from its first client. */
  ghost predicate HasRead(s: Server, fd: int, raw: string, n: nat) {
    && s.loop.Polling? && fd in s.connections && n <= |raw|
    && s.connections[fd] == NewConnection(1, 0).(readBuffer := raw[..n])
    && 1 in s.clients && s.clients[1] == Client(fd, History(raw, raw[..n], [], [], ""))
  }

  lemma NextPart(raw: string, n: nat, m: nat)
    requires n <= m <= |raw|
    ensures raw[..n] + raw[n..m] == raw[..m] && raw[..m] <= raw
  {
  }

  /** One more recv within the limit: the loop reads on. */
  lemma PartIsRead(s: Server, fd: int, raw: string, n: nat, m: nat) returns (s': Server)
    requires CompleteHeaderLength(raw) == Some(|raw|) && MAX_REQUEST_HEADER_SIZE < |raw|
    requires Reachable(s) && HasRead(s, fd, raw, n) && n < m <= n + RECV_SIZE && m <= MAX_REQUEST_HEADER_SIZE
    ensures Reachable(s') && HasRead(s', fd, raw, m) && s'.maxBody == s.maxBody
  {
    hide Reachable, CompleteHeaderLength, HeaderTooLarge, Process;
    NextPart(raw, n, m);
    PartOfLongHead(raw, m);
    ReachableReceived(s, fd, raw[n..m], 0, ALL_OK);
    s' := Received(s, fd, raw[n..m], 0, ALL_OK);
  }

  /** A refusal waits to be written. */
  ghost predicate Refusing(s: Server, fd: int, id: nat, h: History, result: Result) {
    && s.loop.Polling? && fd in s.connections && id in s.clients && s.clients[id] == Client(fd, h)
    && var c := s.connections[fd];
       && c.id == id && c.writeBuffer == result.response && c.closeAfterWrite && !c.transfer.Active()
       && c.interest == WantsWrite
  }

  function TooLong(): Emission { Emission(None, TooLargeResult(), true, "") }

  /** The recv that passes the limit: the 413 is put into the write buffer. */
  lemma LimitIsPassed(s: Server, fd: int, raw: string, n: nat, m: nat) returns (s': Server)
    requires CompleteHeaderLength(raw) == Some(|raw|) && MAX_REQUEST_HEADER_SIZE < m <= |raw|
    requires Reachable(s) && HasRead(s, fd, raw, n) && n < m <= n + RECV_SIZE
    ensures Reachable(s') && s'.maxBody == s.maxBody
    ensures Refusing(s', fd, 1, History(raw, raw[..m], [Reject413], [TooLong()], ""), TooLargeResult())
  {
    hide Reachable, CompleteHeaderLength, HeaderTooLarge, Process, TooLargeResult;
    NextPart(raw, n, m);
    PartOfLongHead(raw, m);
    ReachableReceived(s, fd, raw[n..m], 0, ALL_OK);
    s' := Received(s, fd, raw[n..m], 0, ALL_OK);
    assert [] + [Reject413] == [Reject413] && [] + [TooLong()] == [TooLong()];
  }

  /** A refusal goes out in one send, and the connection is closed. */
  lemma RefusalGoesOut(s: Server, fd: int, id: nat, h: History, result: Result) returns (s': Server)
    requires Reachable(s) && Refusing(s, fd, id, h, result) && IsRefusal(result)
    ensures Reachable(s') && s'.maxBody == s.maxBody && fd !in s'.connections && s'.pool == s.pool
    ensures id in s'.clients && s'.clients[id] == Client(fd, h.(wire := h.wire + result.response))
  {
    hide Reachable, IsRefusal;
    RefusalIsText(result);
    var c := s.connections[fd];
    ReachableSent(s, fd, |c.writeBuffer|, 0, ALL_OK);
    s' := Sent(s, fd, |c.writeBuffer|, 0, ALL_OK);
    assert c.writeBuffer[..|c.writeBuffer|] == c.writeBuffer && c.writeBuffer[|c.writeBuffer|..] == "";
  }

  lemma RefusalIsText(result: Result)
    requires IsRefusal(result)
    ensures result.response != ""
  {
    hide TextResult;
    TextIsNonempty(400, "Bad Request", false, true);
    TextIsNonempty(413, "Payload Too Large", false, true);
    TextIsNonempty(503, "Service Unavailable", false, true);
  }

  /** One response on the wire, a refusal of what the client knows to be a HEAD. */
  ghost predicate OneRefusedHead(h: History, maxBody: nat, e: Emission) {
    && h.emitted == [e] && h.wire == e.Payload() && IsRefusal(e.result)
    && HeadFlags(h.sent, maxBody) == [true]
  }

  lemma OneRefusedHeadIsMiscut(s: Server, id: nat, e: Emission)
    requires Reachable(s) && id in s.clients && OneRefusedHead(s.clients[id].history, s.maxBody, e)
    ensures CutWire([true], s.clients[id].history.wire) != Pieces(s.clients[id].history.emitted)
  {
    hide Reachable, CutWire, Pieces, HeadFlags, IsRefusal;
    ClientCutsWire(s, id);
    assert [e][..0] == [];
    assert Payloads([e]) == "" + e.Payload() == e.Payload();
    assert !IsWhole([true][0], [e][0]);
  }

  /** A run for every HEAD over the limit: it is answered 413 with a body, and the client cannot cut the wire. */
  lemma LongHeadIsMiscut(world: World, maxBody: nat, fd: int, rl: RequestLine, fields: seq<Field>) returns (s: Server)
    requires IsPossible(world)
    requires IsHead(rl, fields) && rl.verb == "HEAD" && |Render(rl, fields)| > MAX_REQUEST_HEADER_SIZE
    ensures Reachable(s) && s.maxBody == maxBody && 1 in s.clients
    ensures var h := s.clients[1].history;
            && h.sent == Render(rl, fields) && OneRefusedHead(h, maxBody, TooLong())
            && CutWire([true], h.wire) != Pieces(h.emitted)
  {
    hide Reachable, IsPossible, IsHead, CompleteHeaderLength, Render, CutWire, Pieces, HeadFlags, TooLargeResult, BatchFrames, Refusing;
    var raw := Render(rl, fields);
    assert raw + "" == raw && "" + raw == raw;
    RenderedIsFramed(rl, fields, "");
    LongHeadIsRefused(rl, fields, "", maxBody);
    var s0 := FirstClient(world, maxBody, fd);
    ReachableClientSent(s0, fd, raw);
    var s1 := ClientSent(s0, fd, raw);
    assert raw[..0] == "";
    var s2 := PartIsRead(s1, fd, raw, 0, 4096);
    var s3 := PartIsRead(s2, fd, raw, 4096, 8192);
    var m := if |raw| < 12288 then |raw| else 12288;
    var s4 := LimitIsPassed(s3, fd, raw, 8192, m);
    s := RefusalGoesOut(s4, fd, 1, History(raw, raw[..m], [Reject413], [TooLong()], ""), TooLargeResult());
    assert TooLong().Payload() == TooLargeResult().response + "" == TooLargeResult().response;
    assert "" + TooLargeResult().response == TooLargeResult().response;
    OneRefusedHeadIsMiscut(s, 1, TooLong());
  }

  /** There are such heads. */
  lemma LongHeadExists() returns (fields: seq<Field>)
    ensures IsHead(TinyLine("HEAD"), fields) && |Render(TinyLine("HEAD"), fields)| > MAX_REQUEST_HEADER_SIZE
  {
    hide IsToken, IsHead, LineText;
    var value := seq(8192, i => 'a');
    fields := [Field("X", value)];
    TinyVerbs();
    TinyIsHead("HEAD");
    LongField(value);
    AddField(TinyLine("HEAD"), Field("X", value));
    assert fields[1..] == [];
    assert |RenderFields(fields)| >= |FieldText(fields[0])| >= |value|;
  }

  lemma LongField(value: string)
    requires |value| > 0 && forall i :: 0 <= i < |value| ==> value[i] == 'a'
    ensures IsField(Field("X", value))
  {
  }

  lemma AddField(rl: RequestLine, f: Field)
    requires IsHead(rl, []) && IsField(f)
    ensures IsHead(rl, [f])
  {
    hide IsField, Acceptable;
  }

  // ---- A full pool ----

  const HEAD_RAW := Render(TinyLine("HEAD"), [])

  function Unavailable(): Emission { Emission(Some(TinyRequest("HEAD")), UnavailableResult(), true, "") }

  /** With the queue full, a HEAD that comes is answered at once. */
  lemma FullPoolRefuses(s: Server, fd: int, id: nat) returns (s': Server)
    requires Reachable(s) && s.loop.Polling? && !ThreadPools.Accepts(s.pool)
    requires fd in s.connections && s.connections[fd] == NewConnection(id, 0)
    requires id in s.clients && s.clients[id] == Client(fd, History(HEAD_RAW, "", [], [], ""))
    ensures Reachable(s') && s'.maxBody == s.maxBody && s'.pool == s.pool
    ensures Refusing(s', fd, id, History(HEAD_RAW, HEAD_RAW, [Good(TinyRequest("HEAD"))], [Unavailable()], ""),
                     UnavailableResult())
  {
    hide Reachable, OnChunk, Render, UnavailableResult, IsToken;
    TinyVerbs();
    TinyIsFirst("HEAD", "", s.maxBody);
    TinyChunk(s.connections[fd], "HEAD", s.maxBody);
    assert "" + HEAD_RAW == HEAD_RAW;
    ReachableReceived(s, fd, HEAD_RAW, 0, ALL_OK);
    s' := Received(s, fd, HEAD_RAW, 0, ALL_OK);
    assert [] + [Good(TinyRequest("HEAD"))] == [Good(TinyRequest("HEAD"))] && [] + [Unavailable()] == [Unavailable()];
  }

  /** A new client sends a HEAD. */
  lemma HeadArrives(s: Server, fd: int) returns (s': Server, id: nat)
    requires Reachable(s) && s.loop.Polling? && fd !in s.connections
    ensures Reachable(s') && s'.maxBody == s.maxBody && s'.loop.Polling? && s'.pool == s.pool
    ensures fd in s'.connections && s'.connections[fd] == NewConnection(id, 0)
    ensures id in s'.clients && s'.clients[id] == Client(fd, History(HEAD_RAW, "", [], [], ""))
  {
    hide Reachable, Render;
    id := s.nextId;
    ReachableStep(s, Accept(fd, 0, true));
    var s1 := Apply(s, Accept(fd, 0, true));
    ReachableClientSent(s1, fd, HEAD_RAW);
    s' := ClientSent(s1, fd, HEAD_RAW);
    assert "" + HEAD_RAW == HEAD_RAW;
  }

  /** The shortest HEAD is one request, and the client knows its method. */
  lemma TinyHeadFlags(maxBody: nat)
    ensures HeadFlags(HEAD_RAW, maxBody) == [true]
  {
    hide FirstFrame, Render, AsksHead, IsToken;
    TinyVerbs();
    TinyIsFirst("HEAD", "", maxBody);
    TinyIsHead("HEAD");
    RenderedAsks(TinyLine("HEAD"), [], "");
    assert HEAD_RAW + "" == HEAD_RAW && HEAD_RAW[|HEAD_RAW|..] == "";
    NothingFramed(maxBody);
  }

  /**
   * A run in which the one place of the queue is taken and a HEAD comes on another connection:
   * the 503 has a body, and the client cannot cut the wire.
   */
  lemma FullPoolMiscutsHead(world: World, maxBody: nat, fd: int, other: int) returns (s: Server, id: nat)
    requires IsPossible(world) && fd != other
    ensures Reachable(s) && s.maxBody == maxBody && id in s.clients && s.clients[id].fd == other
    ensures s.pool.maxQueueSize == 1 && |s.pool.workers| == 1
    ensures var h := s.clients[id].history;
            && h.sent == HEAD_RAW && OneRefusedHead(h, maxBody, Unavailable())
            && CutWire([true], h.wire) != Pieces(h.emitted)
  {
    hide Reachable, IsPossible, Render, CutWire, Pieces, HeadFlags, UnavailableResult, Refusing;
    var s0 := FirstClient(world, maxBody, fd);
    FirstIsAtRest(s0, fd);
    var s1 := RequestComes(s0, fd, NO_HISTORY);
    var s2;
    s2, id := HeadArrives(s1, other);
    var s3 := FullPoolRefuses(s2, other, id);
    var h := History(HEAD_RAW, HEAD_RAW, [Good(TinyRequest("HEAD"))], [Unavailable()], "");
    s := RefusalGoesOut(s3, other, id, h, UnavailableResult());
    assert Unavailable().Payload() == UnavailableResult().response + "" == UnavailableResult().response;
    assert "" + UnavailableResult().response == UnavailableResult().response;
    TinyHeadFlags(maxBody);
    OneRefusedHeadIsMiscut(s, id, Unavailable());
  }
}
