/**
 * The file cache as it is built: a doubly linked recency list of keys, a map from each key
 * to its entry and its place in the list, and a running sum of sizes.
 */
module FileCaches {
  import opened Options
  import opened Lru

  /** A node of the recency list. */
  class Node {
    const key: string
    var prev: Node?
    var next: Node?

    constructor (key: string)
      ensures this.key == key && prev == null && next == null
    {
      this.key := key;
      prev, next := null, null;
    }
  }

  function After(order: seq<Node>, i: nat): Node?
    requires i < |order|
  {
    if i + 1 < |order| then order[i + 1] else null
  }

  function Before(order: seq<Node>, i: nat): Node?
    requires i < |order|
  {
    if i > 0 then order[i - 1] else null
  }

  ghost predicate Hooked(order: seq<Node>, i: nat)
    requires i < |order|
    reads order[i]
  {
    order[i].prev == Before(order, i) && order[i].next == After(order, i)
  }

  ghost predicate NoNodeTwice(order: seq<Node>) {
    forall i, j :: 0 <= i < j < |order| ==> order[i] != order[j]
  }

  /** The doubly linked list, most recently used key first. */
  class RecencyList {
    var head: Node?
    var tail: Node?
    ghost var order: seq<Node>

    ghost predicate Valid()
      reads this, order
    {
      && NoNodeTwice(order)
      && head == (if order == [] then null else order[0])
      && tail == (if order == [] then null else order[|order| - 1])
      && forall i :: 0 <= i < |order| ==> Hooked(order, i)
    }

    constructor ()
      ensures Valid() && order == []
    {
      head, tail := null, null;
      order := [];
    }

    /** Hook a node that is in no list before the first. */
    method HookFront(node: Node)
      requires Valid() && node !in order
      modifies this, order, node
      ensures Valid() && order == [node] + old(order)
    {
      node.prev, node.next := null, head;
      if head != null {
        head.prev := node;
      } else {
        tail := node;
      }
      head := node;
      ghost var was := order;
      order := [node] + order;
      forall i | 0 <= i < |order| ensures Hooked(order, i) {
        if i > 0 {
          assert order[i] == was[i - 1] && old(Hooked(order, i - 1));
        }
      }
    }

    /** Take a node out of the list. */
    method Unhook(node: Node, ghost i: nat)
      requires Valid() && i < |order| && order[i] == node
      modifies this, order
      ensures Valid() && order == RemoveAt(old(order), i) && node !in order
    {
      assert Hooked(order, i);
      if node.prev != null {
        node.prev.next := node.next;
      } else {
        head := node.next;
      }
      if node.next != null {
        node.next.prev := node.prev;
      } else {
        tail := node.prev;
      }
      ghost var was := order;
      order := RemoveAt(order, i);
      forall k | 0 <= k < |order| ensures Hooked(order, k) {
        ghost var j := if k < i then k else k + 1;
        assert order[k] == was[j] && old(Hooked(order, j));
      }
    }
  }

  /** An entry and its place in the recency list. */
  datatype Record = Record(entry: Entry, position: Node)

  /** The i-th node is the place stored for its own key. */
  predicate IsPlaced(order: seq<Node>, entries: map<string, Record>, i: nat)
    requires i < |order|
  {
    var key := order[i].key;
    key in entries && entries[key].position == order[i] && entries[key].entry.path == key
  }

  predicate HasPlace(order: seq<Node>, entries: map<string, Record>, key: string)
    requires key in entries
  {
    entries[key].position in order && entries[key].position.key == key
  }

  /** List and map hold the same keys, and each stored position is that key's own node. */
  ghost predicate Matches(order: seq<Node>, entries: map<string, Record>) {
    && (forall i :: 0 <= i < |order| ==> IsPlaced(order, entries, i))
    && (forall key :: key in entries ==> HasPlace(order, entries, key))
  }

  function EntryAt(entries: map<string, Record>, key: string): Entry {
    if key in entries then entries[key].entry else Entry("", 0, 0, "", "")
  }

  /** The entries in the order of the list. */
  function EntriesOf(order: seq<Node>, entries: map<string, Record>): (r: seq<Entry>)
    ensures |r| == |order|
    ensures forall i :: 0 <= i < |r| ==> r[i] == EntryAt(entries, order[i].key)
  {
    seq(|order|, i requires 0 <= i < |order| => EntryAt(entries, order[i].key))
  }

  lemma PathIsKey(order: seq<Node>, entries: map<string, Record>, i: nat)
    requires Matches(order, entries) && i < |order|
    ensures EntriesOf(order, entries)[i].path == order[i].key
  {
    assert IsPlaced(order, entries, i);
  }

  lemma KeysAreDistinct(order: seq<Node>, entries: map<string, Record>)
    requires Matches(order, entries) && NoNodeTwice(order)
    ensures forall i, j :: 0 <= i < j < |order| ==> order[i].key != order[j].key
    ensures NoPathTwice(EntriesOf(order, entries))
  {
    forall i, j | 0 <= i < j < |order|
      ensures order[i].key != order[j].key && EntriesOf(order, entries)[i].path != EntriesOf(order, entries)[j].path
    {
      assert IsPlaced(order, entries, i) && IsPlaced(order, entries, j);
      PathIsKey(order, entries, i);
      PathIsKey(order, entries, j);
    }
  }

  lemma AfterErase(order: seq<Node>, entries: map<string, Record>, i: nat)
    requires Matches(order, entries) && NoNodeTwice(order) && i < |order|
    ensures var order', entries' := RemoveAt(order, i), entries - {order[i].key};
            Matches(order', entries') && EntriesOf(order', entries') == RemoveAt(EntriesOf(order, entries), i)
  {
    hide HasPlace;
    KeysAreDistinct(order, entries);
    var order', entries' := RemoveAt(order, i), entries - {order[i].key};
    forall k | 0 <= k < |order'| ensures IsPlaced(order', entries', k) {
      var j := if k < i then k else k + 1;
      assert order'[k] == order[j] && IsPlaced(order, entries, j);
    }
    forall key | key in entries' ensures HasPlace(order', entries', key) {
      StillHasPlace(order, entries, i, key);
    }
    forall k | 0 <= k < |order'| ensures EntriesOf(order', entries')[k] == RemoveAt(EntriesOf(order, entries), i)[k] {
      var j := if k < i then k else k + 1;
      assert order'[k] == order[j] && order[j].key != order[i].key;
    }
  }

  lemma StillHasPlace(order: seq<Node>, entries: map<string, Record>, i: nat, key: string)
    requires Matches(order, entries) && i < |order| && key in entries && key != order[i].key
    ensures HasPlace(RemoveAt(order, i), entries - {order[i].key}, key)
  {
    assert HasPlace(order, entries, key);
    var j :| 0 <= j < |order| && order[j] == entries[key].position;
    assert RemoveAt(order, i)[if j < i then j else j - 1] == order[j];
  }

  lemma AfterTouch(order: seq<Node>, entries: map<string, Record>, i: nat)
    requires Matches(order, entries) && i < |order|
    ensures var order' := [order[i]] + RemoveAt(order, i);
            Matches(order', entries)
            && EntriesOf(order', entries) == [EntriesOf(order, entries)[i]] + RemoveAt(EntriesOf(order, entries), i)
  {
    hide IsPlaced, HasPlace, EntryAt;
    var order' := [order[i]] + RemoveAt(order, i);
    forall k | 0 <= k < |order'| ensures IsPlaced(order', entries, k) {
      TouchedIsPlaced(order, entries, i, k);
    }
    forall key | key in entries ensures HasPlace(order', entries, key) {
      TouchedHasPlace(order, entries, i, key);
    }
  }

  lemma TouchedIsPlaced(order: seq<Node>, entries: map<string, Record>, i: nat, k: nat)
    requires Matches(order, entries) && i < |order| && k < |order|
    ensures IsPlaced([order[i]] + RemoveAt(order, i), entries, k)
  {
    hide HasPlace;
    var order' := [order[i]] + RemoveAt(order, i);
    var j := if k == 0 then i else if k - 1 < i then k - 1 else k;
    assert order'[k] == order[j] && IsPlaced(order, entries, j);
  }

  lemma TouchedHasPlace(order: seq<Node>, entries: map<string, Record>, i: nat, key: string)
    requires Matches(order, entries) && i < |order| && key in entries
    ensures HasPlace([order[i]] + RemoveAt(order, i), entries, key)
  {
    hide IsPlaced;
    assert HasPlace(order, entries, key);
    var j :| 0 <= j < |order| && order[j] == entries[key].position;
    assert ([order[i]] + RemoveAt(order, i))[if j == i then 0 else if j < i then j + 1 else j] == order[j];
  }

  lemma AfterPush(order: seq<Node>, entries: map<string, Record>, node: Node, e: Entry)
    requires Matches(order, entries) && node.key !in entries && e.path == node.key
    ensures var order', entries' := [node] + order, entries[node.key := Record(e, node)];
            Matches(order', entries') && EntriesOf(order', entries') == [e] + EntriesOf(order, entries)
  {
    var order', entries' := [node] + order, entries[node.key := Record(e, node)];
    forall k | 0 <= k < |order'| ensures IsPlaced(order', entries', k) {
      if k > 0 {
        assert order'[k] == order[k - 1] && IsPlaced(order, entries, k - 1);
      }
    }
    forall key | key in entries' ensures HasPlace(order', entries', key) {
      if key != node.key {
        assert HasPlace(order, entries, key);
      }
    }
    forall k | 0 <= k < |order'| ensures EntriesOf(order', entries')[k] == ([e] + EntriesOf(order, entries))[k] {
      if k > 0 {
        assert order'[k] == order[k - 1] && IsPlaced(order, entries, k - 1);
      }
    }
  }

  /** FileCache. */
  class FileCache {
    const limits: Limits
    const lru: RecencyList
    var entries: map<string, Record>
    var currentSize: nat

    ghost predicate Valid()
      reads this, lru, lru.order
    {
      && lru.Valid() && Matches(lru.order, entries)
      && WithinLimits(EntriesOf(lru.order, entries), limits)
      && currentSize == SizeOf(EntriesOf(lru.order, entries))
    }

    /** The cache as a list of entries, most recently used first. */
    ghost function Contents(): seq<Entry>
      requires Valid()
      reads this, lru, lru.order
    {
      EntriesOf(lru.order, entries)
    }

    constructor (maxCacheableFileSize: nat, maxCapacity: nat)
      ensures Valid() && fresh(lru) && Contents() == []
      ensures limits == Limits(maxCacheableFileSize, maxCapacity)
    {
      limits := Limits(maxCacheableFileSize, maxCapacity);
      lru := new RecencyList();
      entries := map[];
      currentSize := 0;
    }

    /** Where the node of a cached key stands in the list. */
    ghost method Place(key: string) returns (i: nat)
      requires Valid() && key in entries
      ensures i < |lru.order| && lru.order[i] == entries[key].position && lru.order[i].key == key
      ensures PlaceOf(Contents(), key) == i && Contents()[i] == entries[key].entry
    {
      assert HasPlace(lru.order, entries, key);
      i :| 0 <= i < |lru.order| && lru.order[i] == entries[key].position;
      KeysAreDistinct(lru.order, entries);
      PathIsKey(lru.order, entries, i);
      PlaceIsFirst(Contents(), key, i);
    }

    /** erase. */
    method Erase(key: string)
      requires Valid() && key in entries
      modifies this, lru, lru.order
      ensures Valid() && Contents() == Without(old(Contents()), key)
      ensures entries == old(entries) - {key}
      ensures forall i :: 0 <= i < |lru.order| ==> lru.order[i] in old(lru.order)
    {
      hide Matches, WithinLimits, SizeOf, EntriesOf, PlaceOf;
      ghost var i := Place(key);
      AfterErase(lru.order, entries, i);
      SizeOfRemoved(Contents(), i);
      RemovedWithinLimits(Contents(), limits, i);
      var record := entries[key];
      currentSize := currentSize - record.entry.size;
      lru.Unhook(record.position, i);
      entries := entries - {key};
    }

    /** touch: splice the node to the front and store its place again. */
    method Touch(key: string)
      requires Valid() && key in entries
      modifies this, lru, lru.order
      ensures Valid()
      ensures var m := old(Contents()); var i := PlaceOf(m, key);
              i < |m| && m[i] == old(entries[key].entry) && Contents() == [m[i]] + RemoveAt(m, i)
      ensures entries == old(entries)
      ensures forall i :: 0 <= i < |lru.order| ==> lru.order[i] in old(lru.order)
    {
      hide Matches, WithinLimits, SizeOf, EntriesOf, PlaceOf;
      ghost var m := Contents();
      ghost var i := Place(key);
      AfterTouch(lru.order, entries, i);
      TouchedWithinLimits(m, limits, i);
      var record := entries[key];
      lru.Unhook(record.position, i);
      lru.HookFront(record.position);
      assert entries[key := record.(position := record.position)] == entries;
      entries := entries[key := record.(position := record.position)];
    }

    /** remove. */
    method Remove(path: string)
      requires Valid()
      modifies this, lru, lru.order
      ensures Valid() && Contents() == OneCall(old(Contents()), limits, Call.Remove(path)).1
      ensures forall i :: 0 <= i < |lru.order| ==> lru.order[i] in old(lru.order)
    {
      hide Matches, WithinLimits, SizeOf, EntriesOf, PlaceOf, RemoveAt;
      if path in entries {
        Erase(path);
      } else {
        Absent(path);
      }
    }

    lemma Absent(key: string)
      requires Valid() && key !in entries
      ensures PlaceOf(Contents(), key) == |Contents()| && !Caches(Contents(), key)
    {
      forall i | 0 <= i < |lru.order| ensures Contents()[i].path != key {
        PathIsKey(lru.order, entries, i);
        assert IsPlaced(lru.order, entries, i);
      }
      PlaceOfAbsent(Contents(), key);
    }

    /**
     * evictUntilFits.  The last key of the list is always in the map, so the branch that
     * pops an orphan has nothing to do and is left out.
     */
    method EvictUntilFits(needed: nat)
      requires Valid()
      modifies this, lru, lru.order
      ensures Valid() && Contents() == Fitting(old(Contents()), needed, limits.maxCapacity)
      ensures forall key :: key in entries ==> key in old(entries)
      ensures forall i :: 0 <= i < |lru.order| ==> lru.order[i] in old(lru.order)
    {
      hide Matches, WithinLimits, SizeOf, EntriesOf, PlaceOf, Fitting, RecencyList.Valid;
      ListEnds();
      while lru.tail != null && currentSize + needed > limits.maxCapacity
        invariant Valid() && (lru.tail != null <==> Contents() != [])
        invariant forall i :: 0 <= i < |lru.order| ==> lru.order[i] in old(lru.order)
        invariant Fitting(Contents(), needed, limits.maxCapacity) == Fitting(old(Contents()), needed, limits.maxCapacity)
        invariant forall key :: key in entries ==> key in old(entries)
        decreases |Contents()|
      {
        FittingUnfolds(Contents(), needed, limits.maxCapacity);
        EvictOldest();
        ListEnds();
      }
      FittingUnfolds(Contents(), needed, limits.maxCapacity);
    }

    method EvictOldest()
      requires Valid() && lru.tail != null
      modifies this, lru, lru.order
      ensures Valid() && old(Contents()) != [] && Contents() == old(Contents())[..|old(Contents())| - 1]
      ensures forall i :: 0 <= i < |lru.order| ==> lru.order[i] in old(lru.order)
      ensures forall key :: key in entries ==> key in old(entries)
    {
      hide Matches, WithinLimits, SizeOf, EntriesOf, PlaceOf, RecencyList.Valid;
      var oldest := lru.tail.key;
      LastIsKnown();
      assert oldest in entries;
      Erase(oldest);
    }

    lemma ListEnds()
      requires Valid()
      ensures lru.tail != null <==> Contents() != []
    {
      hide Matches, WithinLimits, SizeOf;
    }

    lemma LastIsKnown()
      requires Valid() && lru.tail != null
      ensures Contents() != [] && lru.tail.key in entries
      ensures PlaceOf(Contents(), lru.tail.key) == |Contents()| - 1
    {
      var last := |lru.order| - 1;
      assert IsPlaced(lru.order, entries, last);
      PathIsKey(lru.order, entries, last);
      PlaceIsFirst(Contents(), lru.tail.key, last);
    }

    /** The end of get: a new node in front, a new record, and its size. */
    method Insert(e: Entry)
      requires Valid() && e.path !in entries
      requires CanCache(limits, e.size) && |e.content| == e.size && SizeOf(Contents()) + e.size <= limits.maxCapacity
      modifies this, lru, lru.order
      ensures Valid() && Contents() == [e] + old(Contents())
      ensures forall i :: 0 <= i < |lru.order| ==> lru.order[i] in old(lru.order) || fresh(lru.order[i])
    {
      hide Matches, WithinLimits, SizeOf, EntriesOf, PlaceOf, Caches, CanCache;
      var node := new Node(e.path);
      Absent(e.path);
      AfterPush(lru.order, entries, node, e);
      FrontWithinLimits(e, Contents(), limits);
      SizeOfFront(e, Contents());
      lru.HookFront(node);
      entries := entries[e.path := Record(e, node)];
      currentSize := currentSize + e.size;
    }

    /** get, with what the file system holds for the path. */
    method Get(path: string, size: nat, modified: int, contentType: string, file: Option<string>)
      returns (found: Option<Entry>)
      requires Valid()
      modifies this, lru, lru.order
      ensures Valid()
      ensures (found, Contents()) == OneCall(old(Contents()), limits, Call.Get(path, size, modified, contentType, file))
      ensures forall i :: 0 <= i < |lru.order| ==> lru.order[i] in old(lru.order) || fresh(lru.order[i])
    {
      hide WithinLimits, SizeOf, EntriesOf, PlaceOf, Fitting, RemoveAt, Matches, Caches, RecencyList.Valid;
      if !CanCache(limits, size) {
        Remove(path);
        return None;
      }
      if path in entries {
        ghost var i := Place(path);
        var entry := entries[path].entry;
        if entry.size == size && entry.modified == modified && entry.contentType == contentType {
          Touch(path);
          return Some(entry);
        }
        Erase(path);
      } else {
        Absent(path);
      }
      found := Load(path, size, modified, contentType, file);
    }

    /** The rest of get, when the path is not cached: read the file, make room and insert it. */
    method Load(path: string, size: nat, modified: int, contentType: string, file: Option<string>)
      returns (found: Option<Entry>)
      requires Valid() && path !in entries && CanCache(limits, size)
      modifies this, lru, lru.order
      ensures Valid()
      ensures var read := ReadFile(file, size);
              (found, Contents()) == if read.None? then (None, old(Contents()))
                else var e := Entry(path, size, modified, contentType, read.value);
                     (Some(e), [e] + Fitting(old(Contents()), size, limits.maxCapacity))
      ensures forall i :: 0 <= i < |lru.order| ==> lru.order[i] in old(lru.order) || fresh(lru.order[i])
    {
      hide WithinLimits, SizeOf, EntriesOf, PlaceOf, Fitting, RemoveAt, Matches, Caches, RecencyList.Valid;
      var loaded := ReadFile(file, size);
      if loaded.None? {
        return None;
      }
      EvictsShortestSuffix(Contents(), size, limits.maxCapacity);
      EvictUntilFits(size);
      var e := Entry(path, size, modified, contentType, loaded.value);
      Insert(e);
      return Some(e);
    }
  }

  lemma FittingUnfolds(entries: seq<Entry>, needed: nat, capacity: nat)
    ensures Fitting(entries, needed, capacity)
         == if entries == [] || SizeOf(entries) + needed <= capacity then entries
            else Fitting(entries[..|entries| - 1], needed, capacity)
  {
  }

  lemma TouchedWithinLimits(m: seq<Entry>, limits: Limits, i: nat)
    requires WithinLimits(m, limits) && i < |m|
    ensures WithinLimits([m[i]] + RemoveAt(m, i), limits)
    ensures SizeOf([m[i]] + RemoveAt(m, i)) == SizeOf(m)
  {
    hide WithinLimits, SizeOf, RemoveAt, Caches;
    SizeOfRemoved(m, i);
    RemovedWithinLimits(m, limits, i);
    WithinMeans(m, limits, i);
    SizeOfFront(m[i], RemoveAt(m, i));
    FrontWithinLimits(m[i], RemoveAt(m, i), limits);
  }
}
