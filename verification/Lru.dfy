/**
 * What the file cache is meant to be: a list of entries, most recently used first, with a
 * limit on the sum of their sizes.
 */
module Lru {
  import opened Options

  datatype Entry = Entry(path: string, size: nat, modified: int, contentType: string, content: string)

  datatype Limits = Limits(maxCacheableFileSize: nat, maxCapacity: nat)

  predicate CanCache(limits: Limits, size: nat) {
    size < limits.maxCacheableFileSize && size <= limits.maxCapacity
  }

  /** Reading a file that was said to have this size: its first bytes, if it opens and has so many. */
  function ReadFile(file: Option<string>, size: nat): Option<string> {
    if file.Some? && |file.value| >= size then Some(file.value[..size]) else None
  }

  function SizeOf(entries: seq<Entry>): nat {
    if entries == [] then 0 else SizeOf(entries[..|entries| - 1]) + entries[|entries| - 1].size
  }

  function RemoveAt<T>(s: seq<T>, i: nat): seq<T>
    requires i < |s|
  {
    s[..i] + s[i + 1..]
  }

  predicate Caches(entries: seq<Entry>, path: string) {
    exists i :: 0 <= i < |entries| && entries[i].path == path
  }

  /** The place of a path, or the length of the list. */
  function PlaceOf(entries: seq<Entry>, path: string): (i: nat)
    ensures i <= |entries| && (i < |entries| ==> entries[i].path == path)
  {
    if entries == [] then 0 else if entries[0].path == path then 0 else 1 + PlaceOf(entries[1..], path)
  }

  function Without(entries: seq<Entry>, path: string): seq<Entry> {
    var i := PlaceOf(entries, path);
    if i < |entries| then RemoveAt(entries, i) else entries
  }

  /** The longest part of the most recent entries that leaves room for so many bytes. */
  function Fitting(entries: seq<Entry>, needed: nat, capacity: nat): seq<Entry> {
    if entries == [] || SizeOf(entries) + needed <= capacity then entries
    else Fitting(entries[..|entries| - 1], needed, capacity)
  }

  predicate IsFresh(e: Entry, size: nat, modified: int, contentType: string) {
    e.size == size && e.modified == modified && e.contentType == contentType
  }

  /** A lookup: what it answers and what the cache holds afterwards. */
  function Lookup(entries: seq<Entry>, limits: Limits, path: string, size: nat, modified: int, contentType: string,
                  file: Option<string>): (Option<Entry>, seq<Entry>)
  {
    if !CanCache(limits, size) then (None, Without(entries, path)) else
    var i := PlaceOf(entries, path);
    if i < |entries| && IsFresh(entries[i], size, modified, contentType) then
      (Some(entries[i]), [entries[i]] + RemoveAt(entries, i))
    else
      var loaded := ReadFile(file, size);
      if loaded.None? then (None, Without(entries, path)) else
      var e := Entry(path, size, modified, contentType, loaded.value);
      (Some(e), [e] + Fitting(Without(entries, path), size, limits.maxCapacity))
  }

  predicate NoPathTwice(entries: seq<Entry>) {
    forall i, j :: 0 <= i < j < |entries| ==> entries[i].path != entries[j].path
  }

  /** What the cache keeps: no path twice, nothing too large, and the sum within the capacity. */
  predicate WithinLimits(entries: seq<Entry>, limits: Limits) {
    && NoPathTwice(entries) && SizeOf(entries) <= limits.maxCapacity
    && forall i :: 0 <= i < |entries| ==> CanCache(limits, entries[i].size) && |entries[i].content| == entries[i].size
  }

  lemma {:induction false} SizeOfRemoved(entries: seq<Entry>, i: nat)
    requires i < |entries|
    ensures SizeOf(entries) == SizeOf(RemoveAt(entries, i)) + entries[i].size
    decreases |entries|
  {
    var last := |entries| - 1;
    if i == last {
      assert RemoveAt(entries, i) == entries[..last];
    } else {
      SizeOfRemoved(entries[..last], i);
      assert RemoveAt(entries, i)[..last - 1] == RemoveAt(entries[..last], i);
    }
  }

  lemma {:induction false} SizeOfFront(e: Entry, entries: seq<Entry>)
    ensures SizeOf([e] + entries) == e.size + SizeOf(entries)
  {
    if entries == [] {
      assert ([e] + entries)[..0] == [];
    } else {
      SizeOfFront(e, entries[..|entries| - 1]);
      assert ([e] + entries)[..|entries|] == [e] + entries[..|entries| - 1];
    }
  }

  lemma {:induction false} PlaceIsFirst(entries: seq<Entry>, path: string, i: nat)
    requires NoPathTwice(entries) && i < |entries| && entries[i].path == path
    ensures PlaceOf(entries, path) == i
  {
    if entries[0].path != path {
      assert forall k :: 0 <= k < |entries[1..]| ==> entries[1..][k] == entries[k + 1];
      PlaceIsFirst(entries[1..], path, i - 1);
    }
  }

  lemma {:induction false} PlaceOfAbsent(entries: seq<Entry>, path: string)
    requires !Caches(entries, path)
    ensures PlaceOf(entries, path) == |entries|
  {
    if entries != [] {
      assert entries[0].path != path;
      forall i | 0 <= i < |entries[1..]| ensures entries[1..][i].path != path {
        assert entries[1..][i] == entries[i + 1];
      }
      PlaceOfAbsent(entries[1..], path);
    }
  }

  /** Eviction drops the shortest end of the list that makes room. */
  lemma {:induction false} EvictsShortestSuffix(entries: seq<Entry>, needed: nat, capacity: nat)
    ensures var kept := Fitting(entries, needed, capacity);
            && kept <= entries
            && (needed <= capacity ==> SizeOf(kept) + needed <= capacity)
            && (forall n :: |kept| < n <= |entries| ==> SizeOf(entries[..n]) + needed > capacity)
  {
    if entries != [] && SizeOf(entries) + needed > capacity {
      var front := entries[..|entries| - 1];
      EvictsShortestSuffix(front, needed, capacity);
      var kept := Fitting(entries, needed, capacity);
      forall n | |kept| < n <= |entries| ensures SizeOf(entries[..n]) + needed > capacity {
        if n < |entries| {
          assert front[..n] == entries[..n];
        } else {
          assert entries[..n] == entries;
        }
      }
    }
  }

  lemma PrefixWithinLimits(entries: seq<Entry>, limits: Limits, kept: seq<Entry>)
    requires WithinLimits(entries, limits) && kept <= entries && SizeOf(kept) <= limits.maxCapacity
    ensures WithinLimits(kept, limits)
  {
    hide SizeOf, CanCache;
    forall i | 0 <= i < |kept| ensures kept[i] == entries[i] {
    }
  }

  lemma RemovedWithinLimits(entries: seq<Entry>, limits: Limits, i: nat)
    requires WithinLimits(entries, limits) && i < |entries|
    ensures WithinLimits(RemoveAt(entries, i), limits) && !Caches(RemoveAt(entries, i), entries[i].path)
  {
    hide SizeOf, CanCache;
    SizeOfRemoved(entries, i);
    var rest := RemoveAt(entries, i);
    forall k | 0 <= k < |rest| ensures rest[k] == entries[if k < i then k else k + 1] {
    }
  }

  lemma FrontWithinLimits(e: Entry, entries: seq<Entry>, limits: Limits)
    requires WithinLimits(entries, limits) && !Caches(entries, e.path) && |e.content| == e.size
    requires CanCache(limits, e.size) && e.size + SizeOf(entries) <= limits.maxCapacity
    ensures WithinLimits([e] + entries, limits)
  {
    hide SizeOf, CanCache;
    SizeOfFront(e, entries);
  }

  lemma WithoutWithinLimits(entries: seq<Entry>, limits: Limits, path: string)
    requires WithinLimits(entries, limits)
    ensures WithinLimits(Without(entries, path), limits) && !Caches(Without(entries, path), path)
  {
    hide WithinLimits, RemoveAt;
    var i := PlaceOf(entries, path);
    if i < |entries| {
      RemovedWithinLimits(entries, limits, i);
    } else {
      NotPlaced(entries, path);
    }
  }

  lemma {:induction false} NotPlaced(entries: seq<Entry>, path: string)
    requires PlaceOf(entries, path) == |entries|
    ensures !Caches(entries, path)
  {
    if entries != [] {
      NotPlaced(entries[1..], path);
      forall i | 0 <= i < |entries| ensures entries[i].path != path {
        if i > 0 {
          assert entries[i] == entries[1..][i - 1];
        }
      }
    }
  }

  /** Every lookup keeps the limits. */
  lemma LookupWithinLimits(entries: seq<Entry>, limits: Limits, path: string, size: nat, modified: int,
                           contentType: string, file: Option<string>)
    requires WithinLimits(entries, limits)
    ensures WithinLimits(Lookup(entries, limits, path, size, modified, contentType, file).1, limits)
  {
    hide WithinLimits, Fitting, PlaceOf, RemoveAt, SizeOf, Caches;
    WithoutWithinLimits(entries, limits, path);
    var i := PlaceOf(entries, path);
    if i < |entries| {
      RemovedWithinLimits(entries, limits, i);
      SizeOfRemoved(entries, i);
      WithinMeans(entries, limits, i);
      if IsFresh(entries[i], size, modified, contentType) && CanCache(limits, size) {
        FrontWithinLimits(entries[i], RemoveAt(entries, i), limits);
      }
    }
    var loaded := ReadFile(file, size);
    if CanCache(limits, size) && loaded.Some? {
      var rest := Without(entries, path);
      var kept := Fitting(rest, size, limits.maxCapacity);
      EvictsShortestSuffix(rest, size, limits.maxCapacity);
      PrefixWithinLimits(rest, limits, kept);
      PrefixCaches(rest, kept, path);
      FrontWithinLimits(Entry(path, size, modified, contentType, loaded.value), kept, limits);
    }
  }

  lemma WithinMeans(entries: seq<Entry>, limits: Limits, i: nat)
    requires WithinLimits(entries, limits) && i < |entries|
    ensures CanCache(limits, entries[i].size) && |entries[i].content| == entries[i].size
    ensures SizeOf(entries) <= limits.maxCapacity
  {
    hide SizeOf;
  }

  lemma PrefixCaches(entries: seq<Entry>, kept: seq<Entry>, path: string)
    requires kept <= entries && !Caches(entries, path)
    ensures !Caches(kept, path)
  {
    forall i | 0 <= i < |kept| ensures kept[i].path != path {
      assert kept[i] == entries[i];
    }
  }

  /** One call of get or remove, with what the file system holds at that moment. */
  datatype Call =
    | Get(path: string, size: nat, modified: int, contentType: string, file: Option<string>)
    | Remove(path: string)

  function OneCall(entries: seq<Entry>, limits: Limits, call: Call): (Option<Entry>, seq<Entry>) {
    match call
    case Get(path, size, modified, contentType, file) => Lookup(entries, limits, path, size, modified, contentType, file)
    case Remove(path) => (None, Without(entries, path))
  }

  /** The answers of a sequence of calls. */
  function Answers(entries: seq<Entry>, limits: Limits, calls: seq<Call>): (r: seq<Option<Entry>>)
    ensures |r| == |calls|
    decreases |calls|
  {
    if calls == [] then []
    else [OneCall(entries, limits, calls[0]).0] + Answers(OneCall(entries, limits, calls[0]).1, limits, calls[1..])
  }

  type Contents = (string, nat, int) -> string

  /** Path, size and modification time determine what a readable file holds. */
  predicate Agrees(call: Call, contents: Contents) {
    call.Get? ==>
      var read := ReadFile(call.file, call.size);
      read.Some? ==> read.value == contents(call.path, call.size, call.modified)
  }

  predicate Remembers(e: Entry, contents: Contents) {
    e.content == contents(e.path, e.size, e.modified)
  }

  predicate AllRemember(entries: seq<Entry>, contents: Contents) {
    forall i :: 0 <= i < |entries| ==> Remembers(entries[i], contents)
  }

  /** An answer is that of reading the file now, or, with the file unreadable, of reading it before. */
  predicate IsTransparent(limits: Limits, call: Call, answer: Option<Entry>, contents: Contents) {
    match call
    case Remove(_) => answer.None?
    case Get(path, size, modified, contentType, file) =>
      var read := ReadFile(file, size);
      if !CanCache(limits, size) then answer.None? else
      && (read.Some? ==> answer == Some(Entry(path, size, modified, contentType, read.value)))
      && (answer.Some? ==> answer.value == Entry(path, size, modified, contentType, contents(path, size, modified)))
  }

  lemma RemovedRemember(entries: seq<Entry>, i: nat, contents: Contents)
    requires AllRemember(entries, contents) && i < |entries|
    ensures AllRemember(RemoveAt(entries, i), contents)
  {
    hide Remembers;
    var rest := RemoveAt(entries, i);
    forall k | 0 <= k < |rest| ensures Remembers(rest[k], contents) {
      assert rest[k] == entries[if k < i then k else k + 1];
    }
  }

  lemma PrefixRemember(entries: seq<Entry>, kept: seq<Entry>, contents: Contents)
    requires AllRemember(entries, contents) && kept <= entries
    ensures AllRemember(kept, contents)
  {
    hide Remembers;
    forall k | 0 <= k < |kept| ensures Remembers(kept[k], contents) {
      assert kept[k] == entries[k];
    }
  }

  lemma FrontRemember(e: Entry, entries: seq<Entry>, contents: Contents)
    requires AllRemember(entries, contents) && Remembers(e, contents)
    ensures AllRemember([e] + entries, contents)
  {
    hide Remembers;
  }

  lemma CallIsTransparent(entries: seq<Entry>, limits: Limits, call: Call, contents: Contents)
    requires AllRemember(entries, contents) && Agrees(call, contents)
    ensures IsTransparent(limits, call, OneCall(entries, limits, call).0, contents)
    ensures AllRemember(OneCall(entries, limits, call).1, contents)
  {
    hide AllRemember, RemoveAt, Fitting, SizeOf, PlaceOf;
    var i := PlaceOf(entries, call.path);
    if i < |entries| {
      RemovedRemember(entries, i, contents);
      EntryRemembers(entries, i, contents);
      FrontRemember(entries[i], RemoveAt(entries, i), contents);
    }
    if call.Get? && CanCache(limits, call.size) && ReadFile(call.file, call.size).Some? {
      var rest := Without(entries, call.path);
      var kept := Fitting(rest, call.size, limits.maxCapacity);
      EvictsShortestSuffix(rest, call.size, limits.maxCapacity);
      PrefixRemember(rest, kept, contents);
      var read := ReadFile(call.file, call.size).value;
      FrontRemember(Entry(call.path, call.size, call.modified, call.contentType, read), kept, contents);
    }
  }

  lemma EntryRemembers(entries: seq<Entry>, i: nat, contents: Contents)
    requires AllRemember(entries, contents) && i < |entries|
    ensures Remembers(entries[i], contents)
  {
  }

  /** Over any sequence of calls the cache cannot be told from reading the files. */
  lemma {:induction false} CacheIsTransparent(entries: seq<Entry>, limits: Limits, calls: seq<Call>,
                                              contents: Contents, k: nat)
    requires AllRemember(entries, contents) && k < |calls|
    requires forall i :: 0 <= i < |calls| ==> Agrees(calls[i], contents)
    ensures IsTransparent(limits, calls[k], Answers(entries, limits, calls)[k], contents)
    decreases |calls|
  {
    hide AllRemember, Agrees, IsTransparent, OneCall;
    CallIsTransparent(entries, limits, calls[0], contents);
    if k > 0 {
      var rest := calls[1..];
      forall i | 0 <= i < |rest| ensures Agrees(rest[i], contents) {
        assert rest[i] == calls[i + 1];
      }
      CacheIsTransparent(OneCall(entries, limits, calls[0]).1, limits, rest, contents, k - 1);
    }
  }
}
