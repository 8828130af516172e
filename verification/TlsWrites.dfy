/**
 * Writing a response over TLS: the write buffer, and then the file in chunks that are read
 * at a fixed offset plus the bytes sent, against sendfile whose offset the kernel advances.
 */
module TlsWrites {
  import opened Options
  import opened HttpParser
  import opened HttpResponses
  import opened StaticFiles
  import opened Connections
  import opened EventHandlers

  const TLS_FILE_CHUNK: nat := 16 * 1024

  /** How a call of writeToConnection ends: all written, to be called again, or the connection closed. */
  datatype Outcome = Finished | Blocked | Lost

  /** The bytes a transfer still owes after so many were sent. */
  function Owed(file: string, offset: nat, size: nat, sent: nat): string {
    if sent < size then Slice(file, offset + sent, size - sent) else ""
  }

  lemma OwedSplits(file: string, offset: nat, size: nat, sent: nat, count: nat)
    requires sent + count <= size && offset + sent + count <= |file|
    ensures Owed(file, offset, size, sent)
         == file[offset + sent..offset + sent + count] + Owed(file, offset, size, sent + count)
  {
    var end := if offset + size < |file| then offset + size else |file|;
    if sent < size {
      assert Owed(file, offset, size, sent) == file[offset + sent..end];
      assert file[offset + sent..end] == file[offset + sent..offset + sent + count] + file[offset + sent + count..end];
    }
  }

  lemma NothingOwedPastEnd(file: string, offset: nat, size: nat, sent: nat)
    requires offset + sent >= |file|
    ensures Owed(file, offset, size, sent) == ""
  {
  }

  /** Without TLS the kernel's offset moves instead, and the same bytes are owed. */
  lemma SendfileOwesTheSame(file: string, offset: nat, size: nat, sent: nat)
    ensures FileTransfer(Some(file), offset + sent, size, sent).Rest() == Owed(file, offset, size, sent)
  {
  }

  /** How often the session or the file offered something among some answers. */
  function Offers(answers: seq<SendAnswer>): nat {
    if answers == [] then 0
    else Offers(answers[..|answers| - 1]) + if answers[|answers| - 1].Room? && answers[|answers| - 1].count > 0 then 1 else 0
  }

  lemma {:induction false} OffersJoin(a: seq<SendAnswer>, b: seq<SendAnswer>)
    ensures Offers(a + b) == Offers(a) + Offers(b)
    decreases |b|
  {
    if b == [] {
      assert a + b == a;
    } else {
      OffersJoin(a, b[..|b| - 1]);
      assert (a + b)[..|a + b| - 1] == a + b[..|b| - 1];
    }
  }

  lemma NoOffers()
    ensures Offers([]) == 0
  {
  }

  /** One more answer. */
  lemma OffersNext(answers: seq<SendAnswer>, start: nat, next: nat)
    requires start <= next < |answers|
    ensures Offers(answers[start..next + 1])
         == Offers(answers[start..next]) + if answers[next].Room? && answers[next].count > 0 then 1 else 0
  {
    assert answers[start..next + 1][..next - start] == answers[start..next];
  }

  lemma OffersOn(answers: seq<SendAnswer>, start: nat, middle: nat, next: nat)
    requires start <= middle <= next <= |answers|
    ensures Offers(answers[start..next]) == Offers(answers[start..middle]) + Offers(answers[middle..next])
  {
    OffersJoin(answers[start..middle], answers[middle..next]);
    assert answers[start..next] == answers[start..middle] + answers[middle..next];
  }

  /** A call ends before its answers do only where it is told to wait, or fails. */
  predicate EndsRightly(outcome: Outcome, answers: seq<SendAnswer>, next: nat) {
    match outcome
    case Finished => next <= |answers|
    case Blocked => next == |answers| || (next < |answers| && answers[next] == Room(0))
    case Lost => next < |answers| && answers[next].SendFailed?
  }

  /** A connection with TLS while it writes one response; `wire` is what SSL_write has taken. */
  class TlsConnection {
    var writeBuffer: string
    var file: Option<string>
    var offset: nat
    var size: nat
    var sent: nat
    var tlsBuffer: string
    ghost var wire: string

    /** The chunk in hand is the part of the file that follows the bytes sent. */
    ghost predicate Valid()
      reads this
    {
      && (file.None? ==> tlsBuffer == "")
      && (file.Some? ==>
            && sent + |tlsBuffer| <= (if sent < size then size else sent)
            && |tlsBuffer| <= TLS_FILE_CHUNK
            && (tlsBuffer != "" ==>
                  && offset + sent + |tlsBuffer| <= |file.value|
                  && tlsBuffer == file.value[offset + sent..offset + sent + |tlsBuffer|]))
    }

    ghost function FileOwed(): string
      reads this
    {
      if file.Some? then Owed(file.value, offset, size, sent) else ""
    }

    constructor (response: string, content: Option<string>, offset: nat, size: nat)
      ensures Valid() && wire == "" && writeBuffer == response
      ensures FileOwed() == if content.Some? then Slice(content.value, offset, size) else ""
    {
      writeBuffer, file, this.offset, this.size := response, content, offset, size;
      sent, tlsBuffer, wire := 0, "", "";
    }

    /** flushBuffer: SSL_write until the buffer is empty or the session has to wait. */
    method Flush(buffer: string, answers: seq<SendAnswer>, start: nat) returns (rest: string, outcome: Outcome, next: nat)
      requires start <= |answers|
      modifies this`wire
      ensures wire + rest == old(wire) + buffer && |rest| <= |buffer|
      ensures rest == buffer[|buffer| - |rest|..]
      ensures outcome.Finished? <==> rest == ""
      ensures start <= next <= |answers| && EndsRightly(outcome, answers, next)
      ensures Offers(answers[start..next]) <= |buffer| - |rest|
    {
      rest, next := buffer, start;
      while rest != ""
        invariant start <= next <= |answers| && |rest| <= |buffer|
        invariant wire + rest == old(wire) + buffer && rest == buffer[|buffer| - |rest|..]
        invariant Offers(answers[start..next]) <= |buffer| - |rest|
        decreases |answers| - next
      {
        if next == |answers| {
          return rest, Blocked, next;
        }
        OffersNext(answers, start, next);
        match answers[next] {
          case SendInterrupted =>
          case SendFailed =>
            return rest, Lost, next;
          case Room(room) =>
            var count := Min(room, |rest|);
            if count == 0 {
              return rest, Blocked, next;
            }
            ghost var before := wire + rest;
            wire := wire + rest[..count];
            assert rest == rest[..count] + rest[count..];
            rest := rest[count..];
            assert wire + rest == before;
        }
        next := next + 1;
      }
      outcome := Finished;
    }

    /** pread of the next chunk, as much as the file and the answer give. */
    method ReadChunk(count: nat)
      requires Valid() && file.Some? && sent < size && tlsBuffer == "" && offset + sent < |file.value| && count > 0
      modifies this`tlsBuffer
      ensures Valid() && tlsBuffer != "" && |tlsBuffer| <= TLS_FILE_CHUNK
    {
      var asked := Min(size - sent, TLS_FILE_CHUNK);
      var got := Min(Min(asked, |file.value| - (offset + sent)), count);
      tlsBuffer := file.value[offset + sent..offset + sent + got];
    }

    /** Send what is left of the chunk in hand and count it as sent. */
    method SendChunk(answers: seq<SendAnswer>, start: nat) returns (outcome: Outcome, next: nat)
      requires Valid() && file.Some? && sent < size && tlsBuffer != "" && start <= |answers|
      modifies this`tlsBuffer, this`sent, this`wire
      ensures Valid() && start <= next <= |answers| && EndsRightly(outcome, answers, next)
      ensures wire + FileOwed() == old(wire + FileOwed())
      ensures |wire| == |old(wire)| + (sent - old(sent)) && Offers(answers[start..next]) <= |wire| - |old(wire)|
      ensures outcome.Finished? ==> sent > old(sent) && tlsBuffer == ""
    {
      hide Owed, Offers, EndsRightly;
      ghost var data, chunk := file.value, tlsBuffer;
      var buffered := |tlsBuffer|;
      var rest;
      rest, outcome, next := Flush(tlsBuffer, answers, start);
      tlsBuffer := rest;
      var count := buffered - |rest|;
      ChunkSent(data, offset, size, sent, chunk, rest, old(wire), wire);
      sent := sent + count;
    }

    /** With no chunk in hand: read the next one, find the end of the file, wait, or fail. */
    method FetchChunk(answers: seq<SendAnswer>, start: nat) returns (outcome: Outcome, next: nat)
      requires Valid() && file.Some? && sent < size && tlsBuffer == "" && start <= |answers|
      modifies this`tlsBuffer, this`file
      ensures Valid() && FileOwed() == old(FileOwed()) && (file == old(file) || (file.None? && FileOwed() == ""))
      ensures start <= next <= |answers| && EndsRightly(outcome, answers, next)
      ensures Offers(answers[start..next]) == if tlsBuffer != "" then 1 else 0
      ensures outcome.Finished? ==> tlsBuffer != "" || file.None? || next == start + 1
      ensures !outcome.Finished? ==> next == start
    {
      hide Offers;
      next := start;
      assert answers[start..start] == [] && Offers([]) == 0 by { NoOffers(); }
      if next == |answers| {
        return Blocked, next;
      }
      OffersNext(answers, start, next);
      match answers[next] {
        case SendInterrupted =>
          next := next + 1;
        case SendFailed =>
          return Lost, next;
        case Room(count) =>
          if offset + sent >= |file.value| {
            NothingOwedPastEnd(file.value, offset, size, sent);
            file := None;
          } else if count == 0 {
            return Blocked, next;
          } else {
            ReadChunk(count);
            next := next + 1;
          }
      }
      outcome := Finished;
    }

    /**
     * The TLS loop of writeToConnection.  What has gone out and what is owed always make the
     * same bytes, and where the loop is finished nothing is owed.
     */
    method PumpFile(answers: seq<SendAnswer>, start: nat) returns (outcome: Outcome, next: nat)
      requires Valid() && start <= |answers|
      modifies this`tlsBuffer, this`sent, this`file, this`wire
      ensures Valid() && wire + FileOwed() == old(wire + FileOwed())
      ensures outcome.Finished? ==> FileOwed() == ""
      ensures start <= next <= |answers| && EndsRightly(outcome, answers, next)
      ensures |old(wire)| <= |wire| && Offers(answers[start..next]) <= 2 * (|wire| - |old(wire)|) + 1
    {
      hide Offers, Owed;
      next := start;
      assert answers[start..start] == [] && Offers([]) == 0 by { NoOffers(); }
      while file.Some? && sent < size
        invariant Valid() && start <= next <= |answers|
        invariant wire + FileOwed() == old(wire + FileOwed())
        invariant file.Some? || FileOwed() == ""
        invariant |old(wire)| <= |wire|
        invariant Offers(answers[start..next]) <= 2 * (|wire| - |old(wire)|)
        decreases |answers| - next, if file.Some? && size > sent then size - sent else 0
      {
        ghost var before := next;
        if tlsBuffer == "" {
          outcome, next := FetchChunk(answers, next);
          OffersOn(answers, start, before, next);
          if !outcome.Finished? {
            return;
          }
          if tlsBuffer == "" {
            continue;
          }
        }
        ghost var middle := next;
        outcome, next := SendChunk(answers, next);
        OffersOn(answers, start, middle, next);
        if !outcome.Finished? {
          return;
        }
      }
      NothingLeft();
      outcome := Finished;
    }

    lemma NothingLeft()
      requires file.None? || sent >= size
      ensures FileOwed() == ""
    {
    }

    /**
     * writeToConnection over TLS: the whole response goes out, in order and once, however it is cut.
     * The call goes on as long as something is offered: it leaves off only where it must wait or
     * fails, and every two offers but one have moved a byte.
     */
    method WriteToConnection(answers: seq<SendAnswer>) returns (outcome: Outcome, next: nat)
      requires Valid()
      modifies this
      ensures next <= |answers| && EndsRightly(outcome, answers, next)
      ensures |old(wire)| <= |wire| && Offers(answers[..next]) <= 2 * (|wire| - |old(wire)|) + 1
      ensures Valid() && wire + (writeBuffer + FileOwed()) == old(wire + (writeBuffer + FileOwed()))
      ensures outcome.Finished? ==> wire == old(wire + (writeBuffer + FileOwed()))
    {
      hide Owed;
      ghost var response := writeBuffer;
      writeBuffer, outcome, next := Flush(writeBuffer, answers, 0);
      Regroup(old(wire), wire, response, writeBuffer, FileOwed());
      assert answers[0..next] == answers[..next];
      assert |wire| + |writeBuffer| == |old(wire)| + |response|;
      if !outcome.Finished? {
        return;
      }
      ghost var flushed, middle := wire, next;
      outcome, next := PumpFile(answers, next);
      OffersOn(answers, 0, middle, next);
      assert answers[0..next] == answers[..next];
      Regroup(flushed, wire, old(FileOwed()), FileOwed(), "");
    }
  }

  /**
   * One delivered result written over TLS, in as many calls as it takes.  At every moment what is
   * out and what is owed make the very bytes that the path with sendfile gives the client, and a
   * finished call has sent them all.
   */
  method DeliverOverTls(request: Request, result: Result, close: bool, content: Option<string>, calls: seq<seq<SendAnswer>>)
    returns (c: TlsConnection, outcome: Outcome)
    ensures var e := EmissionOf(request, result, close, content);
            && c.wire + (c.writeBuffer + c.FileOwed()) == e.Payload()
            && (outcome.Finished? ==> c.wire == e.Payload())
  {
    hide Delivered;
    var t := TransferOf(result, content);
    c := new TlsConnection(Delivered(result, content).response, t.file, t.offset, t.size);
    if t.file.Some? {
      SendfileOwesTheSame(t.file.value, t.offset, t.size, 0);
    }
    ghost var payload := EmissionOf(request, result, close, content).Payload();
    assert "" + payload == payload;
    outcome := Blocked;
    var i, left := 0, 0;
    while i < |calls| && outcome.Blocked?
      invariant 0 <= i <= |calls| && c.Valid() && fresh(c)
      invariant c.wire + (c.writeBuffer + c.FileOwed()) == payload
      invariant outcome.Finished? ==> c.wire == payload
    {
      outcome, left := c.WriteToConnection(calls[i]);
      i := i + 1;
    }
  }

  lemma Regroup(before: string, after: string, buffer: string, rest: string, owed: string)
    requires after + rest == before + buffer
    ensures after + (rest + owed) == before + (buffer + owed)
    ensures after + ("" + rest) == before + buffer && (rest == "" ==> after == before + buffer)
    ensures after + ("" + owed) == after + owed && before + ("" + buffer) == before + buffer
  {
    assert after + (rest + owed) == (after + rest) + owed;
    assert before + (buffer + owed) == (before + buffer) + owed;
    assert "" + rest == rest && "" + owed == owed && "" + buffer == buffer && after + "" == after;
  }

  /** What is left of a chunk is the part of the file behind what went out. */
  lemma ChunkSplits(data: string, from: nat, chunk: string, rest: string)
    requires from + |chunk| <= |data| && chunk == data[from..from + |chunk|]
    requires |rest| <= |chunk| && rest == chunk[|chunk| - |rest|..]
    ensures var count := |chunk| - |rest|;
            chunk[..count] == data[from..from + count] && rest == data[from + count..from + |chunk|]
  {
  }

  /** A chunk of which some went out: what is owed is less by that part, and the rest still follows in the file. */
  lemma ChunkSent(data: string, offset: nat, size: nat, sent: nat, chunk: string, rest: string, before: string, after: string)
    requires sent + |chunk| <= size && offset + sent + |chunk| <= |data|
    requires chunk == data[offset + sent..offset + sent + |chunk|]
    requires after + rest == before + chunk && |rest| <= |chunk| && rest == chunk[|chunk| - |rest|..]
    ensures var sent' := sent + |chunk| - |rest|;
            && after + Owed(data, offset, size, sent') == before + Owed(data, offset, size, sent)
            && rest == data[offset + sent'..offset + sent' + |rest|] && |after| == |before| + (sent' - sent)
  {
    hide Owed;
    var count := |chunk| - |rest|;
    ChunkSplits(data, offset + sent, chunk, rest);
    OwedSplits(data, offset, size, sent, count);
    Moved(before, after, chunk, rest, Owed(data, offset, size, sent), Owed(data, offset, size, sent + count));
  }

  lemma Moved(before: string, after: string, chunk: string, rest: string, owed: string, owed': string)
    requires after + rest == before + chunk && |rest| <= |chunk| && rest == chunk[|chunk| - |rest|..]
    requires owed == chunk[..|chunk| - |rest|] + owed'
    ensures after + owed' == before + owed && |after| == |before| + |chunk| - |rest|
  {
    var gone := chunk[..|chunk| - |rest|];
    assert chunk == gone + rest;
    Cancel(after, before, gone, rest);
    assert (before + gone) + owed' == before + (gone + owed');
  }

  lemma Cancel(a: string, b: string, c: string, d: string)
    requires a + d == b + (c + d)
    ensures a == b + c
  {
    assert |a| == |b + c|;
    assert a == (a + d)[..|a|];
    assert b + (c + d) == (b + c) + d;
    assert b + c == ((b + c) + d)[..|b + c|];
  }
}
