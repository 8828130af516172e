/** The order of the cache: what each call does to it, and over all calls most recently used first. */
module LruRecency {
  import opened Options
  import opened Lru

  /** The entries of other paths, in their order. */
  function Others(entries: seq<Entry>, path: string): seq<Entry> {
    if entries == [] then []
    else (if entries[0].path == path then [] else [entries[0]]) + Others(entries[1..], path)
  }

  lemma {:induction false} OthersOfAbsent(entries: seq<Entry>, path: string)
    requires forall i :: 0 <= i < |entries| ==> entries[i].path != path
    ensures Others(entries, path) == entries
  {
    if entries != [] {
      assert forall i :: 0 <= i < |entries[1..]| ==> entries[1..][i] == entries[i + 1];
      OthersOfAbsent(entries[1..], path);
    }
  }

  /** Taking the entry of a path out leaves the others. */
  lemma {:induction false} WithoutIsOthers(entries: seq<Entry>, path: string)
    requires NoPathTwice(entries)
    ensures Without(entries, path) == Others(entries, path)
  {
    if entries == [] {
    } else if entries[0].path == path {
      var rest := entries[1..];
      assert forall i :: 0 <= i < |rest| ==> rest[i] == entries[i + 1];
      OthersOfAbsent(rest, path);
      assert RemoveAt(entries, 0) == rest;
    } else {
      var rest := entries[1..];
      assert forall i :: 0 <= i < |rest| ==> rest[i] == entries[i + 1];
      WithoutIsOthers(rest, path);
      var i := PlaceOf(rest, path);
      if i < |rest| {
        assert RemoveAt(entries, i + 1) == [entries[0]] + RemoveAt(rest, i);
      } else {
        assert [entries[0]] + rest == entries;
      }
    }
  }

  /** The entry a call asks for is held with the size, time and type the file has now. */
  predicate Holds(entries: seq<Entry>, call: Call, i: nat)
    requires call.Get?
  {
    && i < |entries| && entries[i].path == call.path
    && entries[i].size == call.size && entries[i].modified == call.modified && entries[i].contentType == call.contentType
  }

  /** A file that can be read in the length it was said to have. */
  predicate Readable(call: Call)
    requires call.Get?
  {
    call.file.Some? && |call.file.value| >= call.size
  }

  predicate Fits(limits: Limits, call: Call)
    requires call.Get?
  {
    call.size < limits.maxCacheableFileSize && call.size <= limits.maxCapacity
  }

  /** A held entry is answered, file or no file, and comes first; nothing else moves and nothing goes. */
  lemma HitComesFirst(entries: seq<Entry>, limits: Limits, call: Call, i: nat)
    requires NoPathTwice(entries) && call.Get? && Fits(limits, call) && Holds(entries, call, i)
    ensures OneCall(entries, limits, call) == (Some(entries[i]), [entries[i]] + Others(entries, call.path))
  {
    hide Fitting, RemoveAt, Others;
    PlaceIsFirst(entries, call.path, i);
    WithoutIsOthers(entries, call.path);
  }

  /** The longest part of the most recent entries that leaves room. */
  ghost predicate IsLongestFitting(kept: seq<Entry>, entries: seq<Entry>, needed: nat, capacity: nat) {
    && kept <= entries && SizeOf(kept) + needed <= capacity
    && forall n :: |kept| < n <= |entries| ==> SizeOf(entries[..n]) + needed > capacity
  }

  /** A readable file that is not held is read, and comes first; the least recent others make room, and no more than needed. */
  lemma MissIsLoaded(entries: seq<Entry>, limits: Limits, call: Call)
    requires NoPathTwice(entries) && call.Get? && Fits(limits, call) && Readable(call)
    requires forall i :: 0 <= i < |entries| ==> !Holds(entries, call, i)
    ensures var (answer, after) := OneCall(entries, limits, call);
            && answer == Some(Entry(call.path, call.size, call.modified, call.contentType, call.file.value[..call.size]))
            && after != [] && after[0] == answer.value
            && IsLongestFitting(after[1..], Others(entries, call.path), call.size, limits.maxCapacity)
  {
    hide Fitting, RemoveAt, Others, SizeOf;
    WithoutIsOthers(entries, call.path);
    EvictsShortestSuffix(Without(entries, call.path), call.size, limits.maxCapacity);
    var i := PlaceOf(entries, call.path);
    assert i < |entries| ==> !Holds(entries, call, i);
    var (answer, after) := OneCall(entries, limits, call);
    assert after[1..] == Fitting(Without(entries, call.path), call.size, limits.maxCapacity);
  }

  /** Whatever else is asked is not answered, and its path is not held any more. */
  lemma OtherwiseForgotten(entries: seq<Entry>, limits: Limits, call: Call)
    requires NoPathTwice(entries)
    requires call.Remove? || !Fits(limits, call)
          || (!Readable(call) && forall i :: 0 <= i < |entries| ==> !Holds(entries, call, i))
    ensures OneCall(entries, limits, call) == (None, Others(entries, call.path))
  {
    hide Fitting, RemoveAt, Others;
    WithoutIsOthers(entries, call.path);
    var i := PlaceOf(entries, call.path);
    assert call.Get? && i < |entries| ==> (Holds(entries, call, i) <==> IsFresh(entries[i], call.size, call.modified, call.contentType));
  }

  // ---- All calls ----

  /** What the cache holds after a sequence of calls. */
  function After(limits: Limits, calls: seq<Call>): seq<Entry> {
    if calls == [] then []
    else OneCall(After(limits, calls[..|calls| - 1]), limits, calls[|calls| - 1]).1
  }

  /** The last call that asked for the path and was answered, or -1. */
  function LastUse(limits: Limits, calls: seq<Call>, path: string): int {
    if calls == [] then -1 else
    var front, last := calls[..|calls| - 1], calls[|calls| - 1];
    if last.Get? && last.path == path && OneCall(After(limits, front), limits, last).0.Some? then |front|
    else LastUse(limits, front, path)
  }

  lemma {:induction false} AfterWithinLimits(limits: Limits, calls: seq<Call>)
    ensures WithinLimits(After(limits, calls), limits)
  {
    hide WithinLimits, Lookup, Without;
    if calls == [] {
      NothingWithinLimits(limits);
    } else {
      var front, last := calls[..|calls| - 1], calls[|calls| - 1];
      AfterWithinLimits(limits, front);
      if last.Get? {
        LookupWithinLimits(After(limits, front), limits, last.path, last.size, last.modified, last.contentType, last.file);
      } else {
        WithoutWithinLimits(After(limits, front), limits, last.path);
      }
    }
  }

  lemma NothingWithinLimits(limits: Limits)
    ensures WithinLimits([], limits)
  {
  }

  /** Every entry was used, and each after those behind it. */
  ghost predicate ByRecency(entries: seq<Entry>, limits: Limits, calls: seq<Call>) {
    && (forall i :: 0 <= i < |entries| ==> LastUse(limits, calls, entries[i].path) >= 0)
    && forall i, j :: 0 <= i < j < |entries| ==>
         LastUse(limits, calls, entries[i].path) > LastUse(limits, calls, entries[j].path)
  }

  lemma {:induction false} OthersAreAmong(entries: seq<Entry>, path: string)
    ensures forall i :: 0 <= i < |Others(entries, path)| ==> Others(entries, path)[i].path != path
    ensures forall i :: 0 <= i < |Others(entries, path)| ==> Others(entries, path)[i] in entries
  {
    if entries != [] {
      OthersAreAmong(entries[1..], path);
      assert entries == [entries[0]] + entries[1..];
    }
  }

  lemma {:induction false} OthersByRecency(entries: seq<Entry>, path: string, limits: Limits, calls: seq<Call>)
    requires ByRecency(entries, limits, calls)
    ensures ByRecency(Others(entries, path), limits, calls)
  {
    hide LastUse;
    if entries != [] {
      var rest := entries[1..];
      assert forall i :: 0 <= i < |rest| ==> rest[i] == entries[i + 1];
      OthersByRecency(rest, path, limits, calls);
      OthersAreAmong(rest, path);
      forall i | 0 <= i < |Others(rest, path)|
        ensures LastUse(limits, calls, entries[0].path) > LastUse(limits, calls, Others(rest, path)[i].path)
      {
        var k :| 0 <= k < |rest| && rest[k] == Others(rest, path)[i];
        assert entries[k + 1] == rest[k];
      }
      FrontByRecency(entries[0], Others(rest, path), limits, calls);
    }
  }

  lemma FrontByRecency(e: Entry, entries: seq<Entry>, limits: Limits, calls: seq<Call>)
    requires ByRecency(entries, limits, calls) && LastUse(limits, calls, e.path) >= 0
    requires forall i :: 0 <= i < |entries| ==> LastUse(limits, calls, e.path) > LastUse(limits, calls, entries[i].path)
    ensures ByRecency([e] + entries, limits, calls)
  {
    hide LastUse;
    var all := [e] + entries;
    assert forall i :: 1 <= i < |all| ==> all[i] == entries[i - 1];
  }

  /** What a call leaves is the others or a front of them, behind the entry it answered. */
  lemma CallLeaves(entries: seq<Entry>, limits: Limits, call: Call) returns (kept: seq<Entry>)
    requires NoPathTwice(entries)
    ensures kept <= Others(entries, call.path)
    ensures var (answer, after) := OneCall(entries, limits, call);
            && after == (if answer.Some? then [answer.value] + kept else kept)
            && (answer.Some? ==> call.Get? && answer.value.path == call.path)
            && (answer.None? ==> kept == Others(entries, call.path))
  {
    hide OneCall, Others, SizeOf;
    if call.Remove? || !Fits(limits, call) {
      OtherwiseForgotten(entries, limits, call);
      kept := Others(entries, call.path);
    } else if i: nat :| i < |entries| && Holds(entries, call, i) {
      HitComesFirst(entries, limits, call, i);
      kept := Others(entries, call.path);
    } else if Readable(call) {
      MissIsLoaded(entries, limits, call);
      var after := OneCall(entries, limits, call).1;
      kept := after[1..];
      assert after == [after[0]] + kept;
    } else {
      OtherwiseForgotten(entries, limits, call);
      kept := Others(entries, call.path);
    }
  }

  /** Over every sequence of calls from the empty cache, the contents are most recently used first. */
  lemma {:induction false} ContentsByRecency(limits: Limits, calls: seq<Call>)
    ensures ByRecency(After(limits, calls), limits, calls)
  {
    hide OneCall, WithinLimits, Others, LastUse;
    if calls != [] {
      var front, last := calls[..|calls| - 1], calls[|calls| - 1];
      var entries := After(limits, front);
      ContentsByRecency(limits, front);
      AfterIsOnePath(limits, front);
      OthersByRecency(entries, last.path, limits, front);
      OthersAreAmong(entries, last.path);
      var kept := CallLeaves(entries, limits, last);
      KeptByRecency(kept, Others(entries, last.path), limits, calls);
      var answer := OneCall(entries, limits, last).0;
      if answer.Some? {
        forall i | 0 <= i < |kept| ensures LastUse(limits, calls, kept[i].path) < |front| {
          assert kept[i] == Others(entries, last.path)[i];
          UseOfOther(limits, calls, kept[i].path);
          UseIsPast(limits, front, kept[i].path);
        }
        UseOfAnswered(limits, calls);
        FrontByRecency(answer.value, kept, limits, calls);
      }
    }
  }

  lemma UseOfOther(limits: Limits, calls: seq<Call>, path: string)
    requires calls != [] && path != calls[|calls| - 1].path
    ensures LastUse(limits, calls, path) == LastUse(limits, calls[..|calls| - 1], path)
  {
    hide OneCall;
  }

  lemma UseOfAnswered(limits: Limits, calls: seq<Call>)
    requires calls != [] && calls[|calls| - 1].Get?
    requires OneCall(After(limits, calls[..|calls| - 1]), limits, calls[|calls| - 1]).0.Some?
    ensures LastUse(limits, calls, calls[|calls| - 1].path) == |calls| - 1
  {
    hide OneCall;
  }

  /** A front of entries of other paths is as recent after the call as before. */
  lemma KeptByRecency(kept: seq<Entry>, others: seq<Entry>, limits: Limits, calls: seq<Call>)
    requires calls != [] && kept <= others && ByRecency(others, limits, calls[..|calls| - 1])
    requires forall i :: 0 <= i < |others| ==> others[i].path != calls[|calls| - 1].path
    ensures ByRecency(kept, limits, calls)
  {
    hide LastUse;
    forall i | 0 <= i < |kept|
      ensures kept[i] == others[i] && LastUse(limits, calls, kept[i].path) == LastUse(limits, calls[..|calls| - 1], kept[i].path)
    {
      UseOfOther(limits, calls, kept[i].path);
    }
  }

  lemma AfterIsOnePath(limits: Limits, calls: seq<Call>)
    ensures NoPathTwice(After(limits, calls))
  {
    hide After, SizeOf;
    AfterWithinLimits(limits, calls);
  }

  /** What a call evicts was last used before everything it keeps. */
  lemma EvictedIsOldest(limits: Limits, calls: seq<Call>, call: Call, evicted: Entry, kept: Entry)
    requires evicted in After(limits, calls) && evicted.path != call.path
    requires var after := After(limits, calls + [call]); evicted !in after && kept in after
    ensures LastUse(limits, calls + [call], evicted.path) < LastUse(limits, calls + [call], kept.path)
  {
    hide OneCall, WithinLimits, Others, LastUse;
    var all := calls + [call];
    assert all[..|all| - 1] == calls && all[|all| - 1] == call;
    var entries, others := After(limits, calls), Others(After(limits, calls), call.path);
    AfterIsOnePath(limits, calls);
    ContentsByRecency(limits, calls);
    OthersByRecency(entries, call.path, limits, calls);
    OthersAreAmong(entries, call.path);
    OthersHold(entries, call.path, evicted);
    var front := CallLeaves(entries, limits, call);
    var j: nat :| j < |others| && others[j] == evicted;
    UseOfOther(limits, all, evicted.path);
    UseIsPast(limits, calls, evicted.path);
    NotInFront(front, others, j);
    if kept in front {
      var i: nat :| i < |front| && front[i] == kept;
      assert others[i] == kept;
      UseOfOther(limits, all, kept.path);
    } else {
      UseOfAnswered(limits, all);
    }
  }

  lemma NotInFront(front: seq<Entry>, others: seq<Entry>, j: nat)
    requires front <= others && j < |others| && others[j] !in front
    ensures j >= |front|
  {
    assert forall i :: 0 <= i < |front| ==> front[i] == others[i];
  }

  lemma {:induction false} UseIsPast(limits: Limits, calls: seq<Call>, path: string)
    ensures -1 <= LastUse(limits, calls, path) < |calls|
  {
    hide OneCall;
    if calls != [] {
      UseIsPast(limits, calls[..|calls| - 1], path);
    }
  }

  lemma {:induction false} OthersHold(entries: seq<Entry>, path: string, e: Entry)
    requires e in entries && e.path != path
    ensures e in Others(entries, path)
  {
    if entries[0] != e {
      assert entries == [entries[0]] + entries[1..];
      OthersHold(entries[1..], path, e);
    }
  }
}
