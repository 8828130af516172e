/**
 * The tail of StaticFileHandler::handle, from the file's size and time to the answer:
 * If-None-Match, the range, and then the cache or sendfile.
 */
module StaticServing {
  import opened Options
  import opened Lists
  import opened ByteRange
  import opened Etag
  import opened Hexadecimal
  import opened StaticFiles
  import opened Lru
  import opened LruRecency
  import FileCaches

  /** A request for a file: what the file system says of it, two headers, and what reading it gives. */
  datatype Inquiry = Inquiry(
    path: string,
    size: nat,
    modified: Ticks,
    contentType: string,
    ifNoneMatch: Option<string>,
    range: Option<string>,
    file: Option<string>)

  function Facts(q: Inquiry): FileFacts {
    FileFacts(q.path, q.size, q.contentType, EtagForFile(q.path, q.size, q.modified))
  }

  predicate IsUnmodified(q: Inquiry) {
    q.ifNoneMatch.Some? && SomeElementMatches(Elements(q.ifNoneMatch.value), Facts(q).etag)
  }

  function RangeOf(q: Inquiry): Option<Range> {
    if q.range.Some? then ParseRange(q.range.value, q.size) else None
  }

  predicate IsUnsatisfiable(q: Inquiry) {
    q.range.Some? && RangeOf(q).None?
  }

  function FailedResult(): FileResult { PlainResult(Failed, "Internal Server Error") }

  function CallFor(q: Inquiry): Call {
    Get(q.path, q.size, q.modified, q.contentType, q.file)
  }

  lemma RangeIsValid(q: Inquiry)
    ensures ValidRange(RangeOf(q), q.size)
  {
    hide ParseRange;
    if q.range.Some? && RangeOf(q).Some? {
      RangeExact(q.range.value, q.size);
    }
  }

  /** The answer and what the cache holds afterwards. */
  function Serve(entries: seq<Entry>, limits: Limits, q: Inquiry): (FileResult, seq<Entry>) {
    RangeIsValid(q);
    if IsUnmodified(q) then (NotModifiedResult(Facts(q)), entries) else
    if IsUnsatisfiable(q) then (UnsatisfiableResult(Facts(q)), entries) else
    var (answer, entries') := OneCall(entries, limits, CallFor(q));
    if !CanCache(limits, q.size) then (StreamedResult(Facts(q), RangeOf(q)), entries') else
    if answer.None? then (FailedResult(), entries') else
    (CachedResult(Facts(q), RangeOf(q), answer.value.content), entries')
  }

  /** The limits the server gives its handler: the defaults. */
  const SERVER_LIMITS := Limits(64 * 1024, 16 * 1024 * 1024)

  /** Under those limits exactly the files of 64 KiB and more are left to sendfile. */
  lemma BigFilesAreStreamed(entries: seq<Entry>, q: Inquiry)
    requires Serve(entries, SERVER_LIMITS, q).0.status == Found
    ensures Serve(entries, SERVER_LIMITS, q).0.dynamicBody <==> q.size < 64 * 1024
    ensures Serve(entries, SERVER_LIMITS, q).0.fileSize == q.size
  {
    hide IsUnmodified, IsUnsatisfiable, RangeOf, OneCall, EtagForFile, Slice;
    RangeIsValid(q);
  }

  lemma EtagIsOneLine(path: string, size: nat, modified: Ticks)
    ensures '\n' !in EtagForFile(path, size, modified)
  {
    hide ToHex, Fnv1a64;
    HexHasNo(Fnv1a64(path) as nat, '\n');
    HexHasNo(size, '\n');
    HexHasNo(ToWord(modified), '\n');
  }

  lemma PlainIsOneLine(status: Status, body: string)
    ensures '\n' !in PlainResult(status, body).contentType && PlainResult(status, body).etag == ""
  {
    PlainTextOneLine();
  }

  /** Whatever is answered for a file, its type and tag stay on their lines. */
  lemma ServedIsOneLine(entries: seq<Entry>, limits: Limits, q: Inquiry)
    requires '\n' !in q.contentType
    ensures OneLineFacts(Serve(entries, limits, q).0)
  {
    hide IsUnmodified, IsUnsatisfiable, RangeOf, OneCall, EtagForFile, Slice, PlainResult;
    RangeIsValid(q);
    EtagIsOneLine(q.path, q.size, q.modified);
    PlainIsOneLine(RangeNotSatisfiable, "Range Not Satisfiable");
    PlainIsOneLine(Failed, "Internal Server Error");
  }

  // ---- Which answer it is ----

  /** Some element of If-None-Match is a star, the current tag of the file, or its weak form. */
  ghost predicate NamesCurrentTag(ifNoneMatch: Option<string>, path: string, size: nat, modified: Ticks) {
    ifNoneMatch.Some? &&
    exists i :: 0 <= i < |Elements(ifNoneMatch.value)| &&
      var element := Elements(ifNoneMatch.value)[i];
      element == "*" || element == EtagForFile(path, size, modified) || element == "W/" + EtagForFile(path, size, modified)
  }

  /** A Range header that is one well-formed range and selects some byte. */
  ghost predicate SelectsSome(header: string, size: nat) {
    exists first, last :: IsSingleRange(header, first, last) && exists p :: Selects(first, last, size, p)
  }

  lemma UnmodifiedIsNamed(q: Inquiry)
    ensures IsUnmodified(q) <==> NamesCurrentTag(q.ifNoneMatch, q.path, q.size, q.modified)
  {
    hide EtagForFile;
  }

  lemma UnsatisfiableSelectsNone(q: Inquiry)
    ensures IsUnsatisfiable(q) <==> q.range.Some? && !SelectsSome(q.range.value, q.size)
  {
    hide ParseRange, IsSingleRange, Selects;
    if q.range.Some? {
      RangeExact(q.range.value, q.size);
    }
  }

  /**
   * The answer is a 304 exactly for a client that names the current tag, then a 416 exactly where
   * the range selects nothing, and only a file that belongs into the cache and is neither there
   * nor readable fails; the order is that of the conditions.
   */
  lemma AnswerIsDecided(entries: seq<Entry>, limits: Limits, q: Inquiry)
    ensures var status := Serve(entries, limits, q).0.status;
            var current := NamesCurrentTag(q.ifNoneMatch, q.path, q.size, q.modified);
            var empty := q.range.Some? && !SelectsSome(q.range.value, q.size);
            && (status == NotModified <==> current)
            && (status == RangeNotSatisfiable <==> !current && empty)
            && (status == Failed <==> !current && !empty && CanCache(limits, q.size) && OneCall(entries, limits, CallFor(q)).0.None?)
            && (status == Found <==> !current && !empty && (CanCache(limits, q.size) ==> OneCall(entries, limits, CallFor(q)).0.Some?))
  {
    hide EtagForFile, IsUnmodified, IsUnsatisfiable, NamesCurrentTag, SelectsSome, RangeOf, OneCall, Slice, CanCache;
    RangeIsValid(q);
    UnmodifiedIsNamed(q);
    UnsatisfiableSelectsNone(q);
  }

  /** A 304 or 416 leaves the cache alone; any other answer is one call of it, and a big file is forgotten there. */
  lemma CacheIsUsed(entries: seq<Entry>, limits: Limits, q: Inquiry)
    requires NoPathTwice(entries)
    ensures var (answer, after) := Serve(entries, limits, q);
            && (answer.status == NotModified || answer.status == RangeNotSatisfiable ==> after == entries)
            && (answer.status != NotModified && answer.status != RangeNotSatisfiable ==>
                  after == OneCall(entries, limits, Get(q.path, q.size, q.modified, q.contentType, q.file)).1)
            && (answer.status == Found && !answer.dynamicBody ==> after == Others(entries, q.path))
  {
    hide EtagForFile, IsUnmodified, IsUnsatisfiable, RangeOf, Slice, Others, Without, Lookup;
    RangeIsValid(q);
    if !CanCache(limits, q.size) {
      OtherwiseForgotten(entries, limits, CallFor(q));
    }
  }

  /** A client that sends back a tag it was given is told 304 exactly while size and time are what they were. */
  lemma RevalidationIsExact(entries: seq<Entry>, limits: Limits, q: Inquiry, size: nat, modified: Ticks)
    requires q.ifNoneMatch == Some(EtagForFile(q.path, size, modified))
    ensures Serve(entries, limits, q).0.status == NotModified <==> size == q.size && modified == q.modified
  {
    hide EtagForFile, Serve, SomeElementMatches;
    NotModifiedIsUnmodified(entries, limits, q);
    OldTagNeverMatches(q.path, size, modified, q.size, q.modified);
  }

  lemma NotModifiedIsUnmodified(entries: seq<Entry>, limits: Limits, q: Inquiry)
    ensures Serve(entries, limits, q).0.status == NotModified <==> IsUnmodified(q)
  {
    hide IsUnmodified, NamesCurrentTag, Serve;
    AnswerIsDecided(entries, limits, q);
    UnmodifiedIsNamed(q);
  }

  lemma NotCacheable(entries: seq<Entry>, limits: Limits, q: Inquiry)
    requires !CanCache(limits, q.size)
    ensures OneCall(entries, limits, CallFor(q)) == OneCall(entries, limits, Remove(q.path))
  {
  }

  /** StaticFileHandler, with the file system's answers handed in. */
  class StaticFileHandler {
    const fileCache: FileCaches.FileCache

    constructor (maxCacheableFileSize: nat, maxCacheCapacity: nat)
      ensures fileCache.Valid() && fresh(fileCache) && fresh(fileCache.lru) && fileCache.Contents() == []
      ensures fileCache.limits == Limits(maxCacheableFileSize, maxCacheCapacity)
    {
      fileCache := new FileCaches.FileCache(maxCacheableFileSize, maxCacheCapacity);
    }

    /** The tail of handle. */
    method Handle(q: Inquiry) returns (result: FileResult)
      requires fileCache.Valid()
      modifies fileCache, fileCache.lru, fileCache.lru.order
      ensures fileCache.Valid()
      ensures (result, fileCache.Contents()) == Serve(old(fileCache.Contents()), fileCache.limits, q)
      ensures forall i :: 0 <= i < |fileCache.lru.order| ==>
        fileCache.lru.order[i] in old(fileCache.lru.order) || fresh(fileCache.lru.order[i])
    {
      hide ParseRange, SomeElementMatches, EtagForFile, Lookup, Without, FileCaches.FileCache.Contents;
      RangeIsValid(q);
      var facts := Facts(q);
      if q.ifNoneMatch.Some? {
        var matches := IfNoneMatchMatches(q.ifNoneMatch.value, facts.etag);
        if matches {
          return NotModifiedResult(facts);
        }
      }
      var range := RangeOf(q);
      if q.range.Some? && range.None? {
        return UnsatisfiableResult(facts);
      }
      if CanCache(fileCache.limits, q.size) {
        var cached := fileCache.Get(q.path, q.size, q.modified, q.contentType, q.file);
        if cached.None? {
          return FailedResult();
        }
        return CachedResult(facts, range, cached.value.content);
      }
      NotCacheable(fileCache.Contents(), fileCache.limits, q);
      fileCache.Remove(q.path);
      return StreamedResult(facts, range);
    }
  }

  // ---- With and without the cache ----

  /** Limits under which nothing is ever cached, so that every file is streamed. */
  const NO_CACHE := Limits(0, 0)

  /** The file reads as the file system said, and holds what its path, size and time determine. */
  predicate Reads(q: Inquiry, data: string, contents: Contents) {
    q.file == Some(data) && |data| == q.size && data == contents(q.path, q.size, q.modified)
  }

  /** All that a client can tell of an answer. */
  predicate LooksLike(a: FileResult, b: FileResult, data: string, keepAlive: bool, includeBody: bool) {
    var x, y := StaticFileResponse(a, keepAlive, includeBody), StaticFileResponse(b, keepAlive, includeBody);
    && WireBytes(x, data) == WireBytes(y, data) && x.statusCode == y.statusCode && x.bodySize == y.bodySize
    && x.keepAlive == y.keepAlive && x.closeAfterWrite == y.closeAfterWrite
  }

  lemma LooksLikeItself(a: FileResult, data: string, keepAlive: bool, includeBody: bool)
    ensures LooksLike(a, a, data, keepAlive, includeBody)
  {
  }

  /**
   * A client cannot tell on which side of the cache threshold a file falls, nor what the cache
   * holds: every answer looks like that of a server without any cache.
   */
  lemma ServedAsStreamed(entries: seq<Entry>, limits: Limits, q: Inquiry, data: string, contents: Contents,
                         keepAlive: bool, includeBody: bool)
    requires AllRemember(entries, contents) && Reads(q, data, contents)
    ensures LooksLike(Serve(entries, limits, q).0, Serve([], NO_CACHE, q).0, data, keepAlive, includeBody)
    ensures AllRemember(Serve(entries, limits, q).1, contents)
  {
    hide ParseRange, SomeElementMatches, EtagForFile, LooksLike, AllRemember, Lookup, Without, RangeOf;
    RangeIsValid(q);
    var call := CallFor(q);
    assert data[..q.size] == data;
    CallIsTransparent(entries, limits, call, contents);
    if IsUnmodified(q) || IsUnsatisfiable(q) || !CanCache(limits, q.size) {
      LooksLikeItself(Serve(entries, limits, q).0, data, keepAlive, includeBody);
    } else {
      CachedLooksStreamed(Facts(q), RangeOf(q), data, keepAlive, includeBody);
    }
  }

  lemma CachedLooksStreamed(f: FileFacts, range: Option<Range>, data: string, keepAlive: bool, includeBody: bool)
    requires |data| == f.size && ValidRange(range, f.size)
    ensures LooksLike(CachedResult(f, range, data), StreamedResult(f, range), data, keepAlive, includeBody)
  {
    hide CachedResult, StreamedResult, StaticFileResponse, WireBytes;
    CachedEqualsStreamed(f, range, data, keepAlive, includeBody);
  }

  /** The answers to a sequence of requests. */
  function ServeAll(entries: seq<Entry>, limits: Limits, qs: seq<Inquiry>): (r: seq<FileResult>)
    ensures |r| == |qs|
    decreases |qs|
  {
    if qs == [] then [] else [Serve(entries, limits, qs[0]).0] + ServeAll(Serve(entries, limits, qs[0]).1, limits, qs[1..])
  }

  /** Over any sequence of requests, whatever files and methods, no answer betrays the cache. */
  lemma {:induction false} CacheNeverShows(entries: seq<Entry>, limits: Limits, qs: seq<Inquiry>, contents: Contents, k: nat,
                                           keepAlive: bool, includeBody: bool)
    requires AllRemember(entries, contents) && k < |qs|
    requires forall i :: 0 <= i < |qs| ==> Reads(qs[i], contents(qs[i].path, qs[i].size, qs[i].modified), contents)
    ensures LooksLike(ServeAll(entries, limits, qs)[k], Serve([], NO_CACHE, qs[k]).0,
                      contents(qs[k].path, qs[k].size, qs[k].modified), keepAlive, includeBody)
    decreases |qs|
  {
    hide AllRemember, LooksLike, Serve, RangeOf, Reads, ValidRange;
    var data := contents(qs[0].path, qs[0].size, qs[0].modified);
    ServedAsStreamed(entries, limits, qs[0], data, contents, keepAlive, includeBody);
    if k > 0 {
      var rest := qs[1..];
      forall i | 0 <= i < |rest|
        ensures Reads(rest[i], contents(rest[i].path, rest[i].size, rest[i].modified), contents)
      {
        assert rest[i] == qs[i + 1];
      }
      CacheNeverShows(Serve(entries, limits, qs[0]).1, limits, rest, contents, k - 1, keepAlive, includeBody);
    }
  }
}
