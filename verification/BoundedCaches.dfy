/**
  The time-stamped least-recently-used cache (unix/shared/src/bounded_cache.rs): a vector
  of entries, scanned linearly, each stamped with the tick of its last use. Until the tick
  wraps it behaves as the recency-ordered list of module `Recency`.
*/
module BoundedCaches {
  import opened Recency
  import opened Wrappers

  const U64_MAX: nat := 0xFFFF_FFFF_FFFF_FFFF

  datatype Entry<K, V> = Entry(key: K, used: nat, value: V)

  // `wrapping_add(1)` on a `u64`.
  function NextTick(tick: nat): nat {
    if tick >= U64_MAX then 0 else tick + 1
  }

  // `swap_remove`: the last entry takes the removed one's place.
  function SwapRemove<T>(s: seq<T>, i: nat): (r: seq<T>)
    requires i < |s|
    ensures |r| == |s| - 1
  {
    s[i := s[|s| - 1]][..|s| - 1]
  }

  lemma UpdateSwapsOne<T>(s: seq<T>, i: nat, x: T)
    requires i < |s|
    ensures multiset(s[i := x]) == multiset(s) - multiset{s[i]} + multiset{x}
  {
    assert s == s[..i] + [s[i]] + s[i + 1..];
    assert s[i := x] == s[..i] + [x] + s[i + 1..];
  }

  lemma DropTakesOne<T>(s: seq<T>)
    requires s != []
    ensures multiset(s[..|s| - 1]) == multiset(s) - multiset{s[|s| - 1]}
  {
    assert s == s[..|s| - 1] + [s[|s| - 1]];
  }

  lemma SwapRemoveTakesOne<T>(s: seq<T>, i: nat)
    requires i < |s|
    ensures multiset(SwapRemove(s, i)) == multiset(s) - multiset{s[i]}
  {
    var moved := s[i := s[|s| - 1]];
    UpdateSwapsOne(s, i, s[|s| - 1]);
    DropTakesOne(moved);
  }

  function CutOut<T>(s: seq<T>, j: nat): seq<T>
    requires j < |s|
  {
    s[..j] + s[j + 1..]
  }

  lemma CutOutTakesOne<T>(s: seq<T>, j: nat)
    requires j < |s|
    ensures multiset(CutOut(s, j)) == multiset(s) - multiset{s[j]}
  {
    assert s == s[..j] + [s[j]] + s[j + 1..];
  }

  ghost predicate UniqueEntries<K, V>(entries: seq<Entry<K, V>>) {
    forall i, j :: 0 <= i < j < |entries| ==> entries[i].key != entries[j].key
  }

  ghost predicate NewestFirst<K, V>(recent: seq<Entry<K, V>>, tick: nat) {
    && (forall i :: 0 <= i < |recent| ==> recent[i].used <= tick)
    && (forall i, j :: 0 <= i < j < |recent| ==> recent[i].used > recent[j].used)
  }

  ghost function PairsOf<K, V>(recent: seq<Entry<K, V>>): (r: Pairs<K, V>)
    ensures |r| == |recent|
    ensures forall i :: 0 <= i < |r| ==> r[i] == (recent[i].key, recent[i].value)
  {
    seq(|recent|, i requires 0 <= i < |recent| => (recent[i].key, recent[i].value))
  }

  // The entry with the smallest stamp is the last of the recency order.
  lemma SmallestStampIsLast<K, V>(entries: seq<Entry<K, V>>, recent: seq<Entry<K, V>>, tick: nat, i: nat)
    requires multiset(entries) == multiset(recent) && NewestFirst(recent, tick)
    requires i < |entries| && forall j :: 0 <= j < |entries| ==> entries[i].used <= entries[j].used
    ensures recent != [] && entries[i] == recent[|recent| - 1]
  {
    assert entries[i] in multiset(recent);
    var j :| 0 <= j < |recent| && recent[j] == entries[i];
    var last := recent[|recent| - 1];
    assert last in multiset(entries);
    assert last in entries;
    var m :| 0 <= m < |entries| && entries[m] == last;
    assert entries[i].used <= entries[m].used;
  }

  // Uniqueness of keys does not depend on the order.
  lemma UniqueInOrder<K, V>(entries: seq<Entry<K, V>>, recent: seq<Entry<K, V>>)
    requires multiset(entries) == multiset(recent) && UniqueEntries(entries)
    requires forall i, j :: 0 <= i < j < |recent| ==> recent[i].used > recent[j].used
    ensures UniqueKeys(PairsOf(recent))
  {
    forall i, j | 0 <= i < j < |recent|
      ensures recent[i].key != recent[j].key
    {
      assert recent[i] in multiset(entries) && recent[j] in multiset(entries);
      assert recent[i] in entries && recent[j] in entries;
    }
  }

  lemma KeyInOrder<K, V>(entries: seq<Entry<K, V>>, recent: seq<Entry<K, V>>, key: K)
    requires multiset(entries) == multiset(recent)
    ensures Has(PairsOf(recent), key) <==> exists i :: 0 <= i < |entries| && entries[i].key == key
  {
    if i :| 0 <= i < |entries| && entries[i].key == key {
      assert entries[i] in multiset(recent);
      var j :| 0 <= j < |recent| && recent[j] == entries[i];
      assert PairsOf(recent)[j].0 == key;
    }
    if Has(PairsOf(recent), key) {
      var j :| 0 <= j < |recent| && PairsOf(recent)[j].0 == key;
      assert recent[j] in multiset(entries);
      assert recent[j] in entries;
    }
  }

  lemma CutOutKeepsOrder<K, V>(recent: seq<Entry<K, V>>, tick: nat, j: nat)
    requires NewestFirst(recent, tick) && j < |recent|
    ensures NewestFirst(CutOut(recent, j), tick)
  {
  }

  // Taking an entry out of the order takes its pair out of the list.
  lemma CutOutIsWithout<K, V>(recent: seq<Entry<K, V>>, j: nat)
    requires UniqueKeys(PairsOf(recent)) && j < |recent|
    ensures PairsOf(CutOut(recent, j)) == Without(PairsOf(recent), recent[j].key)
    ensures Find(PairsOf(recent), recent[j].key) == Some(recent[j].value) && Has(PairsOf(recent), recent[j].key)
  {
    var list := PairsOf(recent);
    AtKey(list, j);
    assert PairsOf(CutOut(recent, j)) == list[..j] + list[j + 1..];
  }

  // The place of an entry in the recency order.
  lemma PlaceOf<K, V>(entries: seq<Entry<K, V>>, recent: seq<Entry<K, V>>, i: nat) returns (j: nat)
    requires multiset(entries) == multiset(recent) && i < |entries|
    ensures j < |recent| && recent[j] == entries[i]
  {
    assert entries[i] in multiset(recent);
    j :| 0 <= j < |recent| && recent[j] == entries[i];
  }

  // Moving an entry to the front with a new stamp, and perhaps a new value.
  lemma Refresh<K, V>(entries: seq<Entry<K, V>>, recent: seq<Entry<K, V>>, tick: nat, i: nat, e: Entry<K, V>)
    returns (recent': seq<Entry<K, V>>)
    requires multiset(entries) == multiset(recent) && NewestFirst(recent, tick) && UniqueEntries(entries)
    requires i < |entries| && e.key == entries[i].key && e.used == tick + 1
    ensures multiset(entries[i := e]) == multiset(recent') && NewestFirst(recent', tick + 1)
    ensures PairsOf(recent') == [(e.key, e.value)] + Without(PairsOf(recent), e.key)
    ensures Find(PairsOf(recent), e.key) == Some(entries[i].value) && Has(PairsOf(recent), e.key)
  {
    var j := PlaceOf(entries, recent, i);
    recent' := [e] + CutOut(recent, j);
    UpdateSwapsOne(entries, i, e);
    CutOutTakesOne(recent, j);
    CutOutKeepsOrder(recent, tick, j);
    UniqueInOrder(entries, recent);
    CutOutIsWithout(recent, j);
    FrontPair(e, CutOut(recent, j), tick);
  }

  lemma FrontPair<K, V>(e: Entry<K, V>, rest: seq<Entry<K, V>>, tick: nat)
    requires NewestFirst(rest, tick) && e.used == tick + 1
    ensures NewestFirst([e] + rest, tick + 1)
    ensures PairsOf([e] + rest) == [(e.key, e.value)] + PairsOf(rest)
  {
  }

  // Removing an entry altogether.
  lemma Forget<K, V>(entries: seq<Entry<K, V>>, recent: seq<Entry<K, V>>, tick: nat, i: nat)
    returns (recent': seq<Entry<K, V>>)
    requires multiset(entries) == multiset(recent) && NewestFirst(recent, tick) && UniqueEntries(entries)
    requires i < |entries|
    ensures multiset(SwapRemove(entries, i)) == multiset(recent') && NewestFirst(recent', tick)
    ensures PairsOf(recent') == Without(PairsOf(recent), entries[i].key)
    ensures Find(PairsOf(recent), entries[i].key) == Some(entries[i].value) && Has(PairsOf(recent), entries[i].key)
  {
    var j := PlaceOf(entries, recent, i);
    recent' := CutOut(recent, j);
    SwapRemoveTakesOne(entries, i);
    CutOutTakesOne(recent, j);
    CutOutKeepsOrder(recent, tick, j);
    UniqueInOrder(entries, recent);
    CutOutIsWithout(recent, j);
  }

  // Adding a new key at the front.
  lemma AddFront<K, V>(entries: seq<Entry<K, V>>, recent: seq<Entry<K, V>>, tick: nat, e: Entry<K, V>)
    requires multiset(entries) == multiset(recent) && NewestFirst(recent, tick) && e.used == tick + 1
    ensures multiset(entries + [e]) == multiset([e] + recent) && NewestFirst([e] + recent, tick + 1)
    ensures PairsOf([e] + recent) == [(e.key, e.value)] + PairsOf(recent)
  {
    FrontPair(e, recent, tick);
  }

  lemma DropLast<K, V>(recent: seq<Entry<K, V>>, tick: nat)
    requires recent != [] && NewestFirst(recent, tick)
    ensures NewestFirst(recent[..|recent| - 1], tick)
    ensures PairsOf(recent[..|recent| - 1]) == PairsOf(recent)[..|recent| - 1]
    ensures multiset(recent[..|recent| - 1]) == multiset(recent) - multiset{recent[|recent| - 1]}
  {
    DropTakesOne(recent);
  }

  // Evicting the entry with the smallest stamp drops the last of the list.
  lemma Evict<K, V>(entries: seq<Entry<K, V>>, recent: seq<Entry<K, V>>, tick: nat, i: nat)
    requires multiset(entries) == multiset(recent) && NewestFirst(recent, tick)
    requires i < |entries| && forall j :: 0 <= j < |entries| ==> entries[i].used <= entries[j].used
    ensures recent != [] && entries[i] == recent[|recent| - 1]
    ensures
      var rest := recent[..|recent| - 1];
      && multiset(SwapRemove(entries, i)) == multiset(rest) && NewestFirst(rest, tick)
      && PairsOf(rest) == PairsOf(recent)[..|recent| - 1]
  {
    SmallestStampIsLast(entries, recent, tick, i);
    SwapRemoveTakesOne(entries, i);
    DropLast(recent, tick);
  }

  lemma SwapRemoveKeepsUnique<K, V>(entries: seq<Entry<K, V>>, i: nat)
    requires UniqueEntries(entries) && i < |entries|
    ensures UniqueEntries(SwapRemove(entries, i))
    ensures forall j :: 0 <= j < |entries| - 1 ==> SwapRemove(entries, i)[j].key != entries[i].key
  {
  }

  // ------------------------------------------------- what the operations do to the vector

  ghost predicate Lacks<K, V>(entries: seq<Entry<K, V>>, key: K) {
    forall j :: 0 <= j < |entries| ==> entries[j].key != key
  }

  // The first of the entries with the smallest stamp.
  predicate OldestAt<K, V>(entries: seq<Entry<K, V>>, i: int) {
    0 <= i < |entries|
    && (forall j :: 0 <= j < |entries| ==> entries[i].used <= entries[j].used)
    && forall j :: 0 <= j < i ==> entries[i].used < entries[j].used
  }

  // `e` takes the place of the entry with its key.
  ghost predicate Replaces<K, V>(entries: seq<Entry<K, V>>, entries': seq<Entry<K, V>>, i: int, e: Entry<K, V>) {
    0 <= i < |entries| && entries[i].key == e.key && entries' == entries[i := e]
  }

  // The oldest entry gives way to `e`.
  ghost predicate Evicts<K, V>(entries: seq<Entry<K, V>>, entries': seq<Entry<K, V>>, i: int, e: Entry<K, V>, pair: (K, V)) {
    OldestAt(entries, i) && pair == (entries[i].key, entries[i].value) && entries' == SwapRemove(entries, i) + [e]
  }

  // `e` is pushed behind the entries, over the oldest of them if the cache is full.
  ghost predicate Pushes<K, V>(entries: seq<Entry<K, V>>, entries': seq<Entry<K, V>>, capacity: nat, e: Entry<K, V>,
                               evicted: Option<(K, V)>) {
    if |entries| < capacity then evicted == None && entries' == entries + [e]
    else evicted.Some? && exists i :: Evicts(entries, entries', i, e, evicted.value)
  }

  // `recent` orders the entries by their stamps, none of them later than `stamp`.
  ghost predicate OrderedBy<K, V>(entries: seq<Entry<K, V>>, recent: seq<Entry<K, V>>, stamp: nat) {
    multiset(entries) == multiset(recent) && NewestFirst(recent, stamp)
  }

  lemma OrderHasSize<K, V>(entries: seq<Entry<K, V>>, recent: seq<Entry<K, V>>, stamp: nat)
    requires OrderedBy(entries, recent, stamp)
    ensures |entries| == |recent|
  {
    assert |multiset(entries)| == |entries| && |multiset(recent)| == |recent|;
  }

  lemma ReplaceKeepsUnique<K, V>(entries: seq<Entry<K, V>>, entries': seq<Entry<K, V>>, i: nat, e: Entry<K, V>)
    requires UniqueEntries(entries) && Replaces(entries, entries', i, e)
    ensures UniqueEntries(entries') && e in entries'
  {
    assert entries'[i] == e;
  }

  lemma PushKeepsUnique<K, V>(entries: seq<Entry<K, V>>, entries': seq<Entry<K, V>>, capacity: nat, e: Entry<K, V>,
                              evicted: Option<(K, V)>)
    requires UniqueEntries(entries) && Lacks(entries, e.key) && |entries| <= capacity && capacity > 0
    requires Pushes(entries, entries', capacity, e, evicted)
    ensures UniqueEntries(entries') && |entries'| <= capacity && e in entries'
  {
    if |entries| < capacity {
      AppendUnique(entries, e);
    } else {
      var i :| Evicts(entries, entries', i, e, evicted.value);
      SwapRemoveKeepsUnique(entries, i);
      AppendUnique(SwapRemove(entries, i), e);
    }
  }

  // ----------------------------------------------------------- before the tick wraps

  lemma KeyNotFound<K, V>(entries: seq<Entry<K, V>>, recent: seq<Entry<K, V>>, key: K)
    requires Lacks(entries, key) && multiset(entries) == multiset(recent)
    ensures Find(PairsOf(recent), key) == None && !Has(PairsOf(recent), key)
  {
    KeyInOrder(entries, recent, key);
    FindHas(PairsOf(recent), key);
  }

  // A push evicts the least recently used pair, whatever the new entry's stamp.
  lemma PushEvicts<K, V>(entries: seq<Entry<K, V>>, recent: seq<Entry<K, V>>, stamp: nat, capacity: nat,
                         entries': seq<Entry<K, V>>, e: Entry<K, V>, evicted: Option<(K, V)>)
    requires OrderedBy(entries, recent, stamp) && Lacks(entries, e.key) && capacity > 0
    requires Pushes(entries, entries', capacity, e, evicted)
    ensures evicted == Evicted(PairsOf(recent), capacity, e.key)
  {
    KeyNotFound(entries, recent, e.key);
    OrderHasSize(entries, recent, stamp);
    if |entries| >= capacity {
      var i :| Evicts(entries, entries', i, e, evicted.value);
      Evict(entries, recent, stamp, i);
    }
  }

  lemma PushRefines<K, V>(entries: seq<Entry<K, V>>, recent: seq<Entry<K, V>>, stamp: nat, capacity: nat,
                          entries': seq<Entry<K, V>>, e: Entry<K, V>, evicted: Option<(K, V)>)
    returns (recent': seq<Entry<K, V>>)
    requires OrderedBy(entries, recent, stamp) && Lacks(entries, e.key) && capacity > 0 && e.used == stamp + 1
    requires Pushes(entries, entries', capacity, e, evicted)
    ensures OrderedBy(entries', recent', stamp + 1)
    ensures PairsOf(recent') == After(PairsOf(recent), capacity, Recency.Insert(e.key, e.value))
  {
    KeyNotFound(entries, recent, e.key);
    OrderHasSize(entries, recent, stamp);
    if |entries| < capacity {
      AddFront(entries, recent, stamp, e);
      recent' := [e] + recent;
    } else {
      var i :| Evicts(entries, entries', i, e, evicted.value);
      Evict(entries, recent, stamp, i);
      var rest := recent[..|recent| - 1];
      AddFront(SwapRemove(entries, i), rest, stamp, e);
      recent' := [e] + rest;
    }
  }

  // ----------------------------------------------------------- when the tick wraps

  ghost predicate Orderable<K(!new), V(!new)>(entries: seq<Entry<K, V>>, stamp: nat) {
    exists recent :: OrderedBy(entries, recent, stamp)
  }

  // Nothing, or one entry stamped by a tick that just wrapped.
  predicate Restarted<K, V>(entries: seq<Entry<K, V>>) {
    |entries| <= 1 && forall i :: 0 <= i < |entries| ==> entries[i].used == 0
  }

  // A wrapped tick is no earlier than every stamp only if there is at most one stamp, its own.
  lemma WrapOrders<K(!new), V(!new)>(entries: seq<Entry<K, V>>)
    ensures Orderable(entries, 0) <==> Restarted(entries)
    ensures Restarted(entries) ==> OrderedBy(entries, entries, 0)
  {
    if Restarted(entries) {
      assert OrderedBy(entries, entries, 0);
    }
    if recent: seq<Entry<K, V>> :| OrderedBy(entries, recent, 0) {
      OrderHasSize(entries, recent, 0);
      assert |recent| > 1 ==> recent[0].used > recent[1].used;
      forall i | 0 <= i < |entries| ensures entries[i].used == 0 {
        assert entries[i] in multiset(recent);
      }
    }
  }

  // Alone after the wrap, an entry makes up the whole list the operation should leave.
  lemma AloneAfterReplace<K, V>(entries: seq<Entry<K, V>>, recent: seq<Entry<K, V>>, stamp: nat,
                                entries': seq<Entry<K, V>>, i: nat, e: Entry<K, V>)
    requires OrderedBy(entries, recent, stamp) && Replaces(entries, entries', i, e) && |entries'| == 1
    ensures PairsOf(entries') == [(e.key, e.value)] + Without(PairsOf(recent), e.key)
    ensures Find(PairsOf(recent), e.key) == Some(entries[i].value) && Has(PairsOf(recent), e.key)
  {
    OrderHasSize(entries, recent, stamp);
    assert entries[i] in multiset(recent);
    assert recent == [entries[i]];
    assert PairsOf(recent)[0].0 == e.key;
    assert PairsOf(recent)[1..] == [];
  }

  lemma AloneAfterPush<K, V>(entries: seq<Entry<K, V>>, recent: seq<Entry<K, V>>, stamp: nat, capacity: nat,
                             entries': seq<Entry<K, V>>, e: Entry<K, V>, evicted: Option<(K, V)>)
    requires OrderedBy(entries, recent, stamp) && Lacks(entries, e.key) && |entries| <= capacity && capacity > 0
    requires Pushes(entries, entries', capacity, e, evicted) && |entries'| == 1
    ensures PairsOf(entries') == After(PairsOf(recent), capacity, Recency.Insert(e.key, e.value))
  {
    KeyNotFound(entries, recent, e.key);
    OrderHasSize(entries, recent, stamp);
    if |entries| >= capacity {
      var i :| Evicts(entries, entries', i, e, evicted.value);
      assert entries' == SwapRemove(entries, i) + [e];
      assert PairsOf(recent)[..0] == [];
    }
    assert entries' == [e];
  }

  // ------------------------------------------------------------ across any tick

  /**
    What an operation stamped from `stamp` leaves. Before the wrap the stamps order the list
    it should leave. At the wrap some order of the entries agrees with their stamps exactly
    when the cache restarted, and then the list is right too.
  */
  ghost predicate Tracks<K(!new), V(!new)>(entries: seq<Entry<K, V>>, recent: seq<Entry<K, V>>, stamp: nat, list: Pairs<K, V>) {
    if stamp < U64_MAX then OrderedBy(entries, recent, stamp + 1) && PairsOf(recent) == list
    else
      (Orderable(entries, 0) <==> Restarted(entries))
      && (Restarted(entries) ==> OrderedBy(entries, recent, 0) && PairsOf(recent) == list)
  }

  lemma MissTracks<K(!new), V(!new)>(entries: seq<Entry<K, V>>, recent: seq<Entry<K, V>>, stamp: nat)
    requires OrderedBy(entries, recent, stamp)
    ensures Tracks(entries, recent, stamp, PairsOf(recent))
  {
    WrapOrders(entries);
    if stamp >= U64_MAX && Restarted(entries) {
      OrderHasSize(entries, recent, stamp);
      forall i | 0 <= i < |recent| ensures recent[i].used == 0 {
        assert recent[i] in multiset(entries);
        assert recent[i] in entries;
      }
    }
  }

  lemma ReplaceTracks<K(!new), V(!new)>(entries: seq<Entry<K, V>>, recent: seq<Entry<K, V>>, stamp: nat,
                            entries': seq<Entry<K, V>>, i: nat, e: Entry<K, V>)
    returns (recent': seq<Entry<K, V>>)
    requires OrderedBy(entries, recent, stamp) && UniqueEntries(entries) && stamp <= U64_MAX
    requires Replaces(entries, entries', i, e) && e.used == NextTick(stamp)
    ensures Tracks(entries', recent', stamp, [(e.key, e.value)] + Without(PairsOf(recent), e.key))
    ensures Find(PairsOf(recent), e.key) == Some(entries[i].value) && Has(PairsOf(recent), e.key)
  {
    var j := PlaceOf(entries, recent, i);
    UniqueInOrder(entries, recent);
    CutOutIsWithout(recent, j);
    recent' := entries';
    if stamp < U64_MAX {
      recent' := Refresh(entries, recent, stamp, i, e);
    } else {
      WrapOrders(entries');
      if |entries'| == 1 {
        AloneAfterReplace(entries, recent, stamp, entries', i, e);
      }
    }
  }

  lemma PushTracks<K(!new), V(!new)>(entries: seq<Entry<K, V>>, recent: seq<Entry<K, V>>, stamp: nat, capacity: nat,
                         entries': seq<Entry<K, V>>, e: Entry<K, V>, evicted: Option<(K, V)>)
    returns (recent': seq<Entry<K, V>>)
    requires OrderedBy(entries, recent, stamp) && Lacks(entries, e.key) && |entries| <= capacity && capacity > 0
    requires Pushes(entries, entries', capacity, e, evicted) && e.used == NextTick(stamp) && stamp <= U64_MAX
    ensures Tracks(entries', recent', stamp, After(PairsOf(recent), capacity, Recency.Insert(e.key, e.value)))
    ensures evicted == Evicted(PairsOf(recent), capacity, e.key)
  {
    PushEvicts(entries, recent, stamp, capacity, entries', e, evicted);
    recent' := entries';
    if stamp < U64_MAX {
      recent' := PushRefines(entries, recent, stamp, capacity, entries', e, evicted);
    } else {
      WrapOrders(entries');
      PushIsNotEmpty(entries, capacity, entries', e, evicted);
      if |entries'| == 1 {
        AloneAfterPush(entries, recent, stamp, capacity, entries', e, evicted);
      }
    }
  }

  lemma PushIsNotEmpty<K, V>(entries: seq<Entry<K, V>>, capacity: nat, entries': seq<Entry<K, V>>, e: Entry<K, V>,
                             evicted: Option<(K, V)>)
    requires Pushes(entries, entries', capacity, e, evicted)
    ensures entries' != [] && entries'[|entries'| - 1] == e
  {
    if |entries| >= capacity {
      var i :| Evicts(entries, entries', i, e, evicted.value);
    }
  }

  // With the stamped entry in it, a cache restarted exactly when it holds nothing else.
  lemma RestartedAlone<K, V>(entries: seq<Entry<K, V>>, e: Entry<K, V>)
    requires e in entries && e.used == 0
    ensures Restarted(entries) <==> entries == [e]
  {
  }

  // ---------------------------------------------------------------- the cache

  class BoundedCache<K(==,!new), V(!new)> {
    const capacity: nat
    var tick: nat
    var entries: seq<Entry<K, V>>
    ghost var recent: seq<Entry<K, V>>  // the entries, most recently used first

    // Holds whatever the tick does.
    ghost predicate Valid()
      reads this
    {
      0 < capacity && |entries| <= capacity && UniqueEntries(entries) && tick <= U64_MAX
    }

    // The stamps tell the order of use.
    ghost predicate Ordered()
      reads this
    {
      OrderedBy(entries, recent, tick)
    }

    ghost function List(): Pairs<K, V>
      reads this
    {
      PairsOf(recent)
    }

    constructor (capacity: nat)
      ensures Valid() && Ordered() && List() == [] && tick == 0 && entries == []
      ensures this.capacity == if capacity == 0 then 1 else capacity
    {
      this.capacity := if capacity == 0 then 1 else capacity;
      tick := 0;
      entries := [];
      recent := [];
    }

    // The linear scan behind every lookup: the entry's place, or the length.
    method Position(key: K) returns (i: nat)
      ensures i <= |entries| && (i < |entries| ==> entries[i].key == key)
      ensures i == |entries| <==> Lacks(entries, key)
    {
      i := 0;
      while i < |entries| && entries[i].key != key
        invariant 0 <= i <= |entries|
        invariant forall j :: 0 <= j < i ==> entries[j].key != key
      {
        i := i + 1;
      }
    }

    // The scan for the smallest stamp, the first of them on a tie.
    method Oldest() returns (i: nat)
      requires entries != []
      ensures OldestAt(entries, i)
    {
      i := 0;
      var k := 1;
      while k < |entries|
        invariant 0 <= i < k <= |entries|
        invariant forall j :: 0 <= j < k ==> entries[i].used <= entries[j].used
        invariant forall j :: 0 <= j < i ==> entries[i].used < entries[j].used
      {
        if entries[k].used < entries[i].used {
          i := k;
        }
        k := k + 1;
      }
    }

    // Looking a key up uses it: its entry becomes the newest.
    method Get(key: K) returns (r: Option<V>)
      requires Valid()
      modifies this
      ensures Valid() && tick == NextTick(old(tick))
      ensures if r.None? then entries == old(entries) && Lacks(entries, key)
              else exists i :: Replaces(old(entries), entries, i, Entry(key, tick, r.value)) && old(entries)[i].value == r.value
      ensures old(Ordered()) ==> r == Find(old(List()), key)
      ensures old(Ordered()) && old(tick) < U64_MAX ==> Ordered() && List() == After(old(List()), capacity, Recency.Get(key))
      ensures old(Ordered()) && old(tick) == U64_MAX ==>
                (Orderable(entries, tick) <==> if Lacks(old(entries), key) then Restarted(old(entries)) else |old(entries)| == 1)
                && (Orderable(entries, tick) ==> Ordered() && List() == After(old(List()), capacity, Recency.Get(key)))
    {
      tick := NextTick(tick);
      var i := Position(key);
      if i == |entries| {
        if OrderedBy(entries, recent, old(tick)) {
          KeyNotFound(entries, recent, key);
          MissTracks(entries, recent, old(tick));
        }
        return None;
      }
      r := Some(entries[i].value);
      Touch(i, Entry(key, tick, r.value), old(tick));
    }

    // Write an entry back in place with its new stamp.
    method Touch(i: nat, e: Entry<K, V>, ghost stamp: nat)
      requires Valid() && i < |entries| && entries[i].key == e.key && e.used == NextTick(stamp) && stamp <= U64_MAX
      modifies this`entries, this`recent
      ensures Valid() && Replaces(old(entries), entries, i, e) && e in entries
      ensures old(OrderedBy(entries, recent, stamp)) ==>
                Tracks(entries, recent, stamp, [(e.key, e.value)] + Without(old(List()), e.key))
                && Find(old(List()), e.key) == Some(old(entries)[i].value) && Has(old(List()), e.key)
      ensures stamp == U64_MAX ==> (Restarted(entries) <==> |old(entries)| == 1)
    {
      entries := entries[i := e];
      ReplaceKeepsUnique(old(entries), entries, i, e);
      if old(OrderedBy(entries, recent, stamp)) {
        recent := ReplaceTracks(old(entries), recent, stamp, entries, i, e);
      }
      if stamp == U64_MAX {
        RestartedAlone(entries, e);
      }
    }

    // Push a key that is not cached, over the oldest entry if it does not fit.
    method Push(e: Entry<K, V>, ghost stamp: nat) returns (evicted: Option<(K, V)>)
      requires Valid() && Lacks(entries, e.key) && e.used == NextTick(stamp) && stamp <= U64_MAX
      modifies this`entries, this`recent
      ensures Valid() && Pushes(old(entries), entries, capacity, e, evicted) && e in entries
      ensures old(OrderedBy(entries, recent, stamp)) ==>
                Tracks(entries, recent, stamp, After(old(List()), capacity, Recency.Insert(e.key, e.value)))
                && evicted == Evicted(old(List()), capacity, e.key)
      ensures stamp == U64_MAX ==> (Restarted(entries) <==> old(entries) == [] || capacity == 1)
    {
      evicted := PushEntry(e);
      PushKeepsUnique(old(entries), entries, capacity, e, evicted);
      if old(OrderedBy(entries, recent, stamp)) {
        recent := PushTracks(old(entries), recent, stamp, capacity, entries, e, evicted);
      }
      if stamp == U64_MAX {
        RestartedAlone(entries, e);
      }
    }

    method PushEntry(e: Entry<K, V>) returns (evicted: Option<(K, V)>)
      requires 0 < capacity
      modifies this`entries
      ensures Pushes(old(entries), entries, capacity, e, evicted)
    {
      evicted := None;
      if |entries| >= capacity {
        var oldest := Oldest();
        evicted := Some((entries[oldest].key, entries[oldest].value));
        entries := SwapRemove(entries, oldest);
        assert Evicts(old(entries), entries + [e], oldest, e, evicted.value);
      }
      entries := entries + [e];
    }

    // Store a value under a key as the newest entry, returning what had to give way.
    method Insert(key: K, value: V) returns (evicted: Option<(K, V)>)
      requires Valid()
      modifies this
      ensures Valid() && tick == NextTick(old(tick)) && Entry(key, tick, value) in entries
      ensures if Lacks(old(entries), key) then Pushes(old(entries), entries, capacity, Entry(key, tick, value), evicted)
              else evicted == None && exists i :: Replaces(old(entries), entries, i, Entry(key, tick, value))
      ensures old(Ordered()) ==> evicted == Evicted(old(List()), capacity, key)
      ensures old(Ordered()) && old(tick) < U64_MAX ==>
                Ordered() && List() == After(old(List()), capacity, Recency.Insert(key, value))
      ensures old(Ordered()) && old(tick) == U64_MAX ==>
                (Orderable(entries, tick) <==>
                 if Lacks(old(entries), key) then old(entries) == [] || capacity == 1 else |old(entries)| == 1)
                && (Orderable(entries, tick) ==> Ordered() && List() == After(old(List()), capacity, Recency.Insert(key, value)))
    {
      tick := NextTick(tick);
      var i := Position(key);
      if i == |entries| {
        evicted := Push(Entry(key, tick, value), old(tick));
      } else {
        Touch(i, Entry(key, tick, value), old(tick));
        evicted := None;
      }
    }

    method Remove(key: K) returns (r: Option<V>)
      requires Valid()
      modifies this`entries, this`recent
      ensures Valid() && Lacks(entries, key)
      ensures old(Ordered()) ==>
                && Ordered()
                && List() == After(old(List()), capacity, Recency.Remove(key))
                && r == Find(old(List()), key)
    {
      var i := Position(key);
      if i == |entries| {
        if Ordered() {
          KeyNotFound(entries, recent, key);
          UniqueInOrder(entries, recent);
          WithoutKeeps(PairsOf(recent), key);
        }
        return None;
      }
      if Ordered() {
        recent := Forget(entries, recent, tick, i);
      }
      r := Some(entries[i].value);
      SwapRemoveKeepsUnique(entries, i);
      entries := SwapRemove(entries, i);
    }

    method Clear()
      requires Valid()
      modifies this`entries, this`recent
      ensures Valid() && entries == []
      ensures old(Ordered()) ==> Ordered() && List() == After(old(List()), capacity, Recency.Clear)
    {
      entries := [];
      recent := [];
    }
  }

  lemma AppendUnique<K, V>(entries: seq<Entry<K, V>>, e: Entry<K, V>)
    requires UniqueEntries(entries) && Lacks(entries, e.key)
    ensures UniqueEntries(entries + [e]) && e in entries + [e]
  {
    var all := entries + [e];
    assert all[|entries|] == e;
  }

  // -------------------------------------------------------------- whole runs

  // A cache with room for one more at most takes two new keys, and every stamp is ahead of the
  // tick: the second pushes out the first.
  method SecondPushesOutFirst<K(==,!new), V(!new)>(cache: BoundedCache<K, V>, b: (K, V), c: (K, V))
    returns (evicted: Option<(K, V)>)
    requires cache.Valid() && 2 <= cache.capacity <= |cache.entries| + 1
    requires Lacks(cache.entries, b.0) && Lacks(cache.entries, c.0) && b.0 != c.0
    requires AllPast(cache.entries, NextTick(cache.tick))
    modifies cache
    ensures evicted == Some(b)
  {
    var _ := cache.Insert(b.0, b.1);
    NewestIsSmallest(old(cache.entries), cache.entries, cache.capacity, Entry(b.0, cache.tick, b.1), c.0);
    evicted := cache.Insert(c.0, c.1);
  }

  predicate AllPast<K, V>(entries: seq<Entry<K, V>>, stamp: nat) {
    forall i :: 0 <= i < |entries| ==> stamp < entries[i].used
  }

  lemma NewestIsSmallest<K, V>(entries: seq<Entry<K, V>>, entries': seq<Entry<K, V>>, capacity: nat, e: Entry<K, V>, key: K)
    requires exists evicted :: Pushes(entries, entries', capacity, e, evicted)
    requires AllPast(entries, e.used) && |entries| <= capacity <= |entries| + 1 && 0 < capacity
    requires Lacks(entries, key) && key != e.key
    ensures |entries'| == capacity && Lacks(entries', key)
    ensures forall i :: OldestAt(entries', i) ==> entries'[i] == e
  {
    var evicted :| Pushes(entries, entries', capacity, e, evicted);
    if |entries| >= capacity {
      var i :| Evicts(entries, entries', i, e, evicted.value);
      SwapRemoveMembers(entries, i);
    }
    assert entries'[|entries'| - 1] == e;
  }

  lemma SwapRemoveMembers<K, V>(entries: seq<Entry<K, V>>, i: nat)
    requires i < |entries|
    ensures |SwapRemove(entries, i)| == |entries| - 1
    ensures forall e :: e in SwapRemove(entries, i) ==> e in entries
  {
  }

  // Where the recency list gives up one that was there before.
  lemma ListKeepsTheNewest<K, V>(list: Pairs<K, V>, capacity: nat, b: (K, V), c: K)
    requires !Has(list, b.0) && !Has(list, c) && b.0 != c && |list| <= capacity <= |list| + 1 && 2 <= capacity
    ensures var evicted := Evicted(After(list, capacity, Recency.Insert(b.0, b.1)), capacity, c);
            evicted.Some? && evicted.value in list
  {
  }

  /**
    The order is really lost at the wrap. Any ordered cache of two or more, full or one short
    of it, whose stamps are all nonzero: when the tick wraps at the insertion of a new key,
    the next new key pushes that one out, the most recently used.
  */
  method WrapEvictsTheNewest<K(==,!new), V(!new)>(cache: BoundedCache<K, V>, b: (K, V), c: (K, V))
    returns (evicted: Option<(K, V)>)
    requires cache.Valid() && cache.Ordered() && cache.tick == U64_MAX
    requires 2 <= cache.capacity <= |cache.entries| + 1 && AllPast(cache.entries, 0)
    requires Lacks(cache.entries, b.0) && Lacks(cache.entries, c.0) && b.0 != c.0
    modifies cache
    ensures evicted == Some(b)
    ensures
      var wanted := Evicted(After(old(cache.List()), cache.capacity, Recency.Insert(b.0, b.1)), cache.capacity, c.0);
      wanted.Some? && wanted.value in old(cache.List())
  {
    KeyNotFound(cache.entries, cache.recent, b.0);
    KeyNotFound(cache.entries, cache.recent, c.0);
    OrderHasSize(cache.entries, cache.recent, cache.tick);
    ListKeepsTheNewest(cache.List(), cache.capacity, b, c.0);
    evicted := SecondPushesOutFirst(cache, b, c);
  }

  // The same when a lookup that misses wraps the tick, and no stamp is 1 either.
  method MissedWrapEvictsTheNewest<K(==,!new), V(!new)>(cache: BoundedCache<K, V>, missing: K, b: (K, V), c: (K, V))
    returns (evicted: Option<(K, V)>)
    requires cache.Valid() && cache.Ordered() && cache.tick == U64_MAX
    requires 2 <= cache.capacity <= |cache.entries| + 1 && AllPast(cache.entries, 1)
    requires Lacks(cache.entries, missing) && Lacks(cache.entries, b.0) && Lacks(cache.entries, c.0) && b.0 != c.0
    modifies cache
    ensures evicted == Some(b)
    ensures
      var list := After(old(cache.List()), cache.capacity, Recency.Get(missing));
      var wanted := Evicted(After(list, cache.capacity, Recency.Insert(b.0, b.1)), cache.capacity, c.0);
      wanted.Some? && wanted.value in old(cache.List())
  {
    KeyNotFound(cache.entries, cache.recent, b.0);
    KeyNotFound(cache.entries, cache.recent, c.0);
    KeyNotFound(cache.entries, cache.recent, missing);
    OrderHasSize(cache.entries, cache.recent, cache.tick);
    ListKeepsTheNewest(cache.List(), cache.capacity, b, c.0);
    var found := cache.Get(missing);
    evicted := SecondPushesOutFirst(cache, b, c);
  }

  // Any operations on an empty cache, fewer than the tick has values, are the list's run.
  method Perform<K(==,!new), V(!new)>(cache: BoundedCache<K, V>, ops: seq<Op<K, V>>)
    requires cache.Valid() && cache.Ordered() && cache.List() == [] && cache.tick == 0 && |ops| <= U64_MAX
    modifies cache
    ensures cache.Valid() && cache.Ordered() && cache.List() == Run(ops, cache.capacity)
  {
    for n := 0 to |ops|
      invariant cache.Valid() && cache.Ordered() && cache.tick <= n
      invariant cache.List() == Run(ops[..n], cache.capacity)
    {
      assert ops[..n + 1][..n] == ops[..n];
      match ops[n]
      case Get(key) => var _ := cache.Get(key);
      case Insert(key, value) => var _ := cache.Insert(key, value);
      case Remove(key) => var _ := cache.Remove(key);
      case Clear => cache.Clear();
    }
    assert ops[..|ops|] == ops;
  }

  ghost predicate Holds<K, V>(entries: seq<Entry<K, V>>, key: K, value: V) {
    exists i :: 0 <= i < |entries| && entries[i].key == key && entries[i].value == value
  }

  lemma HoldsItsList<K, V>(entries: seq<Entry<K, V>>, recent: seq<Entry<K, V>>, stamp: nat, key: K, value: V)
    requires OrderedBy(entries, recent, stamp)
    ensures Holds(entries, key, value) <==> (key, value) in PairsOf(recent)
  {
    if i :| 0 <= i < |entries| && entries[i].key == key && entries[i].value == value {
      var j := PlaceOf(entries, recent, i);
      assert PairsOf(recent)[j] == (key, value);
    }
    if (key, value) in PairsOf(recent) {
      var j :| 0 <= j < |recent| && PairsOf(recent)[j] == (key, value);
      assert recent[j] in multiset(entries);
      assert recent[j] in entries;
    }
  }

  // Two caches that did the same: whatever the smaller holds, the larger holds.
  method LargerCacheHoldsMore<K(==,!new), V(!new)>(ops: seq<Op<K, V>>, c: nat, d: nat)
    returns (small: BoundedCache<K, V>, large: BoundedCache<K, V>)
    requires c <= d && |ops| <= U64_MAX
    ensures small.capacity == (if c == 0 then 1 else c) && large.capacity == (if d == 0 then 1 else d)
    ensures small.Valid() && small.Ordered() && small.List() == Run(ops, small.capacity)
    ensures large.Valid() && large.Ordered() && large.List() == Run(ops, large.capacity)
    ensures forall key, value :: Holds(small.entries, key, value) ==> Holds(large.entries, key, value)
  {
    small := new BoundedCache(c);
    large := new BoundedCache(d);
    Perform(small, ops);
    Perform(large, ops);
    forall key, value | Holds(small.entries, key, value) ensures Holds(large.entries, key, value) {
      HoldsItsList(small.entries, small.recent, small.tick, key, value);
      HoldsItsList(large.entries, large.recent, large.tick, key, value);
      LargerCacheIncludes(ops, small.capacity, large.capacity, (key, value));
    }
  }
}
