/**
  What a least-recently-used cache is for (unix/shared/src/bounded_cache.rs): a list of
  key-value pairs, most recently used first. The time-stamped cache is proved against it
  in `BoundedCaches`; here are its own laws.
*/
module Recency {
  import opened Wrappers

  type Pairs<K, V> = seq<(K, V)>

  ghost predicate Has<K, V>(list: Pairs<K, V>, key: K) {
    exists i :: 0 <= i < |list| && list[i].0 == key
  }

  ghost predicate UniqueKeys<K, V>(list: Pairs<K, V>) {
    forall i, j :: 0 <= i < j < |list| ==> list[i].0 != list[j].0
  }

  ghost function Find<K, V>(list: Pairs<K, V>, key: K): Option<V> {
    if list == [] then None
    else if list[0].0 == key then Some(list[0].1)
    else Find(list[1..], key)
  }

  ghost function Without<K, V>(list: Pairs<K, V>, key: K): Pairs<K, V> {
    if list == [] then []
    else if list[0].0 == key then Without(list[1..], key)
    else [list[0]] + Without(list[1..], key)
  }

  datatype Op<K, V> = Get(key: K) | Insert(key: K, value: V) | Remove(key: K) | Clear

  // The list after one operation on a cache of this capacity.
  ghost function After<K, V>(list: Pairs<K, V>, capacity: nat, op: Op<K, V>): Pairs<K, V> {
    match op
    case Get(key) =>
      var found := Find(list, key);
      if found.Some? then [(key, found.value)] + Without(list, key) else list
    case Insert(key, value) =>
      if Has(list, key) then [(key, value)] + Without(list, key)
      else if |list| >= capacity && list != [] then [(key, value)] + list[..|list| - 1]
      else [(key, value)] + list
    case Remove(key) => Without(list, key)
    case Clear => []
  }

  // What an insert evicts: the least recently used pair, if the key is new and does not fit.
  ghost function Evicted<K, V>(list: Pairs<K, V>, capacity: nat, key: K): Option<(K, V)> {
    if !Has(list, key) && |list| >= capacity && list != [] then Some(list[|list| - 1]) else None
  }

  ghost function Run<K, V>(ops: seq<Op<K, V>>, capacity: nat): Pairs<K, V> {
    if ops == [] then [] else After(Run(ops[..|ops| - 1], capacity), capacity, ops[|ops| - 1])
  }

  // ------------------------------------------------------------- basic laws

  lemma {:induction false} WithoutMembers<K, V>(list: Pairs<K, V>, key: K, p: (K, V))
    ensures p in Without(list, key) <==> p in list && p.0 != key
  {
    if list != [] {
      WithoutMembers(list[1..], key, p);
      assert p in list <==> p == list[0] || p in list[1..];
    }
  }

  lemma HasFront<K, V>(list: Pairs<K, V>, key: K)
    requires list != []
    ensures Has(list, key) <==> list[0].0 == key || Has(list[1..], key)
  {
    if Has(list[1..], key) {
      var i :| 0 <= i < |list[1..]| && list[1..][i].0 == key;
      assert list[i + 1].0 == key;
    }
    if Has(list, key) && list[0].0 != key {
      var i :| 0 <= i < |list| && list[i].0 == key;
      assert list[1..][i - 1].0 == key;
    }
  }

  lemma UniqueCons<K, V>(p: (K, V), list: Pairs<K, V>)
    requires UniqueKeys(list) && !Has(list, p.0)
    ensures UniqueKeys([p] + list)
  {
    var all := [p] + list;
    assert forall i :: 0 < i < |all| ==> all[i] == list[i - 1];
  }

  lemma {:induction false} WithoutKeeps<K, V>(list: Pairs<K, V>, key: K)
    requires UniqueKeys(list)
    ensures UniqueKeys(Without(list, key)) && !Has(Without(list, key), key)
    ensures |Without(list, key)| == if Has(list, key) then |list| - 1 else |list|
    ensures !Has(list, key) ==> Without(list, key) == list
  {
    if list != [] {
      var rest := list[1..];
      WithoutKeeps(rest, key);
      HasFront(list, key);
      if list[0].0 == key {
        assert !Has(rest, key);
      } else {
        WithoutLacks(rest, key, list[0].0);
        UniqueCons(list[0], Without(rest, key));
        HasFront(Without(list, key), key);
      }
    }
  }

  // Without a key, the list has no key it lacked before.
  lemma WithoutLacks<K, V>(list: Pairs<K, V>, key: K, other: K)
    requires !Has(list, other)
    ensures !Has(Without(list, key), other)
  {
    forall i | 0 <= i < |Without(list, key)|
      ensures Without(list, key)[i].0 != other
    {
      WithoutMembers(list, key, Without(list, key)[i]);
    }
  }

  lemma {:induction false} FindHas<K, V>(list: Pairs<K, V>, key: K)
    ensures Find(list, key).Some? <==> Has(list, key)
    ensures Find(list, key).Some? ==> (key, Find(list, key).value) in list
  {
    if list != [] && list[0].0 != key {
      FindHas(list[1..], key);
      assert forall i :: 0 < i < |list| ==> list[i] == list[1..][i - 1];
    }
  }

  // Keys stay unique and the size stays within the capacity, over every operation.
  lemma AfterKeeps<K, V>(list: Pairs<K, V>, capacity: nat, op: Op<K, V>)
    requires UniqueKeys(list) && |list| <= capacity && capacity > 0
    ensures UniqueKeys(After(list, capacity, op)) && |After(list, capacity, op)| <= capacity
  {
    if !op.Clear? {
      WithoutKeeps(list, op.key);
      FindHas(list, op.key);
    }
  }

  lemma {:induction false} RunKeeps<K, V>(ops: seq<Op<K, V>>, capacity: nat)
    requires capacity > 0
    ensures UniqueKeys(Run(ops, capacity)) && |Run(ops, capacity)| <= capacity
  {
    if ops != [] {
      RunKeeps(ops[..|ops| - 1], capacity);
      AfterKeeps(Run(ops[..|ops| - 1], capacity), capacity, ops[|ops| - 1]);
    }
  }

  lemma {:induction false} AtKey<K, V>(list: Pairs<K, V>, j: nat)
    requires UniqueKeys(list) && j < |list|
    ensures Find(list, list[j].0) == Some(list[j].1)
    ensures Without(list, list[j].0) == list[..j] + list[j + 1..]
    ensures Has(list, list[j].0)
  {
    if j == 0 {
      HasFront(list, list[0].0);
      assert !Has(list[1..], list[0].0);
      WithoutKeeps(list[1..], list[0].0);
    } else {
      AtKey(list[1..], j - 1);
      assert list[..j] + list[j + 1..] == [list[0]] + (list[1..][..j - 1] + list[1..][j..]);
    }
  }

  // --------------------------------------------------------------- inclusion

  // `small` is `large` with some pairs left out.
  ghost predicate Within<K, V>(small: Pairs<K, V>, large: Pairs<K, V>) {
    if small == [] then true
    else if large == [] then false
    else if small[0] == large[0] then Within(small[1..], large[1..])
    else Within(small, large[1..])
  }

  lemma {:induction false} WithinMembers<K, V>(small: Pairs<K, V>, large: Pairs<K, V>)
    requires Within(small, large)
    ensures forall p :: p in small ==> p in large
    ensures |small| <= |large|
    decreases |large|
  {
    if small != [] {
      if small[0] == large[0] {
        WithinMembers(small[1..], large[1..]);
        assert small == [small[0]] + small[1..];
      } else {
        WithinMembers(small, large[1..]);
      }
    }
  }

  // Removing a key from both, or a key only the larger list has, keeps the order.
  lemma {:induction false} WithinWithout<K, V>(small: Pairs<K, V>, large: Pairs<K, V>, key: K)
    requires Within(small, large)
    ensures Within(Without(small, key), Without(large, key))
    decreases |large|
  {
    if small != [] {
      var s, l := Without(small, key), Without(large, key);
      if small[0] == large[0] {
        WithinWithout(small[1..], large[1..], key);
        if small[0].0 != key {
          assert s[1..] == Without(small[1..], key) && l[1..] == Without(large[1..], key);
        }
      } else {
        WithinWithout(small, large[1..], key);
        if large[0].0 != key {
          assert l[1..] == Without(large[1..], key);
          WithinSkips(s, large[0], Without(large[1..], key));
        }
      }
    }
  }

  lemma {:induction false} WithinSkips<K, V>(small: Pairs<K, V>, p: (K, V), large: Pairs<K, V>)
    requires Within(small, large)
    ensures Within(small, [p] + large)
    decreases |large|, 1
  {
    assert ([p] + large)[1..] == large;
    if small != [] && small[0] == p {
      WithinTail(small, large);
    }
  }

  lemma {:induction false} WithinTail<K, V>(small: Pairs<K, V>, large: Pairs<K, V>)
    requires Within(small, large) && small != []
    ensures Within(small[1..], large)
    decreases |large|, 0
  {
    if small[0] == large[0] {
      assert large == [large[0]] + large[1..];
      WithinSkips(small[1..], large[0], large[1..]);
    } else {
      WithinTail(small, large[1..]);
      assert large == [large[0]] + large[1..];
      WithinSkips(small[1..], large[0], large[1..]);
    }
  }

  lemma {:induction false} WithinDropBoth<K, V>(small: Pairs<K, V>, large: Pairs<K, V>)
    requires Within(small, large) && small != []
    ensures large != [] && Within(small[..|small| - 1], large[..|large| - 1])
    decreases |large|
  {
    var s, l := small[..|small| - 1], large[..|large| - 1];
    if small[0] == large[0] {
      if |small| > 1 {
        WithinDropBoth(small[1..], large[1..]);
        assert s[1..] == small[1..][..|small| - 2] && l[1..] == large[1..][..|large| - 2];
      }
    } else {
      WithinDropBoth(small, large[1..]);
      assert l == [large[0]] + large[1..][..|large| - 2];
      WithinSkips(s, large[0], large[1..][..|large| - 2]);
    }
  }

  lemma {:induction false} WithinDropSmall<K, V>(small: Pairs<K, V>, large: Pairs<K, V>)
    requires Within(small, large) && small != []
    ensures Within(small[..|small| - 1], large)
    decreases |large|
  {
    var s := small[..|small| - 1];
    if small[0] == large[0] {
      if |small| > 1 {
        WithinDropSmall(small[1..], large[1..]);
        assert s[1..] == small[1..][..|small| - 2];
      }
    } else {
      WithinDropSmall(small, large[1..]);
      assert large == [large[0]] + large[1..];
      WithinSkips(s, large[0], large[1..]);
    }
  }

  lemma WithinCons<K, V>(p: (K, V), small: Pairs<K, V>, large: Pairs<K, V>)
    requires Within(small, large)
    ensures Within([p] + small, [p] + large)
  {
    assert ([p] + small)[1..] == small && ([p] + large)[1..] == large;
  }

  lemma WithinHas<K, V>(small: Pairs<K, V>, large: Pairs<K, V>, key: K)
    requires Within(small, large) && Has(small, key)
    ensures Has(large, key)
  {
    WithinMembers(small, large);
    var i :| 0 <= i < |small| && small[i].0 == key;
    assert small[i] in small && small[i] in large;
    var j :| 0 <= j < |large| && large[j] == small[i];
    assert large[j].0 == key;
  }

  lemma SameFind<K, V>(small: Pairs<K, V>, large: Pairs<K, V>, key: K)
    requires Within(small, large) && UniqueKeys(large) && Has(small, key)
    ensures Find(small, key) == Find(large, key) && Find(large, key).Some?
  {
    WithinHas(small, large, key);
    WithinMembers(small, large);
    FindHas(small, key);
    FindHas(large, key);
    var i :| 0 <= i < |large| && large[i] == (key, Find(small, key).value);
    var j :| 0 <= j < |large| && large[j] == (key, Find(large, key).value);
    assert i == j by {
      assert large[i].0 == large[j].0;
    }
  }

  // The smaller cache's list is the larger one's with at most the spare capacity left out.
  ghost predicate Inside<K, V>(small: Pairs<K, V>, large: Pairs<K, V>, smallCap: nat, largeCap: nat) {
    && UniqueKeys(small) && UniqueKeys(large)
    && |small| <= smallCap && |large| <= largeCap
    && Within(small, large)
    && |large| - |small| <= largeCap - smallCap
  }

  lemma InsertInside<K, V>(small: Pairs<K, V>, large: Pairs<K, V>, c: nat, d: nat, op: Op<K, V>)
    requires Inside(small, large, c, d) && 0 < c <= d && op.Insert?
    ensures Within(After(small, c, op), After(large, d, op))
    ensures |After(large, d, op)| - |After(small, c, op)| <= d - c
  {
    var p := (op.key, op.value);
    WithoutKeeps(small, op.key);
    WithoutKeeps(large, op.key);
    WithinWithout(small, large, op.key);
    WithinMembers(small, large);
    if Has(small, op.key) {
      WithinHas(small, large, op.key);
      WithinCons(p, Without(small, op.key), Without(large, op.key));
    } else if Has(large, op.key) {
      if |small| >= c {
        WithinDropSmall(small, Without(large, op.key));
        WithinCons(p, small[..|small| - 1], Without(large, op.key));
      } else {
        WithinCons(p, small, Without(large, op.key));
      }
    } else if |large| >= d {
      WithinDropBoth(small, large);
      WithinCons(p, small[..|small| - 1], large[..|large| - 1]);
    } else if |small| >= c {
      WithinDropSmall(small, large);
      WithinCons(p, small[..|small| - 1], large);
    } else {
      WithinCons(p, small, large);
    }
  }

  lemma GetInside<K, V>(small: Pairs<K, V>, large: Pairs<K, V>, c: nat, d: nat, op: Op<K, V>)
    requires Inside(small, large, c, d) && 0 < c <= d && op.Get?
    ensures Within(After(small, c, op), After(large, d, op))
    ensures |After(large, d, op)| - |After(small, c, op)| <= d - c
  {
    WithoutKeeps(small, op.key);
    WithoutKeeps(large, op.key);
    WithinWithout(small, large, op.key);
    FindHas(small, op.key);
    FindHas(large, op.key);
    if Has(small, op.key) {
      SameFind(small, large, op.key);
      WithinHas(small, large, op.key);
      WithinCons((op.key, Find(large, op.key).value), Without(small, op.key), Without(large, op.key));
    } else if Has(large, op.key) {
      WithinSkips(small, (op.key, Find(large, op.key).value), Without(large, op.key));
    }
  }

  lemma RemoveInside<K, V>(small: Pairs<K, V>, large: Pairs<K, V>, c: nat, d: nat, key: K)
    requires Inside(small, large, c, d)
    ensures Within(Without(small, key), Without(large, key))
    ensures |Without(large, key)| - |Without(small, key)| <= d - c
  {
    WithoutKeeps(small, key);
    WithoutKeeps(large, key);
    WithinWithout(small, large, key);
    if Has(small, key) {
      WithinHas(small, large, key);
    }
  }

  lemma AfterInside<K, V>(small: Pairs<K, V>, large: Pairs<K, V>, c: nat, d: nat, op: Op<K, V>)
    requires Inside(small, large, c, d) && 0 < c <= d
    ensures Inside(After(small, c, op), After(large, d, op), c, d)
  {
    AfterKeeps(small, c, op);
    AfterKeeps(large, d, op);
    match op
    case Get(_) => GetInside(small, large, c, d, op);
    case Insert(_, _) => InsertInside(small, large, c, d, op);
    case Remove(key) => RemoveInside(small, large, c, d, key);
    case Clear =>
  }

  lemma {:induction false} RunInside<K, V>(ops: seq<Op<K, V>>, c: nat, d: nat)
    requires 0 < c <= d
    ensures Inside(Run(ops, c), Run(ops, d), c, d)
  {
    if ops != [] {
      var before := ops[..|ops| - 1];
      RunInside(before, c, d);
      AfterInside(Run(before, c), Run(before, d), c, d, ops[|ops| - 1]);
    }
  }

  // After the same operations from empty, whatever a smaller cache holds a larger one
  // holds too, with the same value.
  lemma LargerCacheIncludes<K, V>(ops: seq<Op<K, V>>, c: nat, d: nat, p: (K, V))
    requires 0 < c <= d && p in Run(ops, c)
    ensures p in Run(ops, d)
  {
    RunInside(ops, c, d);
    WithinMembers(Run(ops, c), Run(ops, d));
  }
}
