/** A bounded map that forgets its least recently used key. */
module LruCache {
  import opened Prelude

  /** `order` lists the keys, most recently used first. */
  datatype Lru<V> = Lru(entries: map<nat, V>, order: seq<nat>)

  function Empty<V>(): Lru<V> {
    Lru(map[], [])
  }

  predicate Distinct(s: seq<nat>) {
    forall i, j | 0 <= i < j < |s| :: s[i] != s[j]
  }

  predicate Valid<V>(c: Lru<V>, capacity: nat) {
    && |c.order| <= capacity && Distinct(c.order)
    && (forall k | k in c.order :: k in c.entries)
    && (forall k | k in c.entries :: k in c.order)
  }

  function Forget(s: seq<nat>, k: nat): (r: seq<nat>)
    ensures forall x :: x in r <==> x in s && x != k
    ensures |r| <= |s|
  {
    if s == [] then []
    else if s[0] == k then Forget(s[1..], k)
    else [s[0]] + Forget(s[1..], k)
  }

  /** Reading a key makes it the most recently used. */
  function Touch<V>(c: Lru<V>, k: nat): Lru<V> {
    if k in c.entries then c.(order := [k] + Forget(c.order, k)) else c
  }

  function PutIn<V>(c: Lru<V>, capacity: nat, k: nat, v: V): Lru<V>
    requires capacity > 0
  {
    if k in c.entries then Lru(c.entries[k := v], [k] + Forget(c.order, k))
    else if |c.order| < capacity then Lru(c.entries[k := v], [k] + c.order)
    else
      var oldest := c.order[|c.order| - 1];
      Lru((c.entries - {oldest})[k := v], [k] + c.order[..|c.order| - 1])
  }

  function Pop<V>(c: Lru<V>, k: nat): Lru<V> {
    Lru(c.entries - {k}, Forget(c.order, k))
  }

  lemma {:induction false} ForgetDistinct(s: seq<nat>, k: nat)
    requires Distinct(s)
    ensures Distinct(Forget(s, k))
    ensures k in s ==> |Forget(s, k)| < |s|
  {
    if s != [] {
      DistinctTail(s);
      assert s == [s[0]] + s[1..];
      ForgetDistinct(s[1..], k);
    }
  }

  lemma TouchValid<V>(c: Lru<V>, capacity: nat, k: nat)
    requires Valid(c, capacity)
    ensures Valid(Touch(c, k), capacity) && Touch(c, k).entries == c.entries
  {
    ForgetDistinct(c.order, k);
  }

  lemma PopValid<V>(c: Lru<V>, capacity: nat, k: nat)
    requires Valid(c, capacity)
    ensures Valid(Pop(c, k), capacity)
  {
    ForgetDistinct(c.order, k);
  }

  /** A put stores its own entry, keeps others unchanged, and evicts a key only
      when the cache is full and the key is new. */
  lemma PutFacts<V>(c: Lru<V>, capacity: nat, k: nat, v: V)
    requires Valid(c, capacity) && capacity > 0
    ensures
      var c' := PutIn(c, capacity, k, v);
      && Valid(c', capacity)
      && k in c'.entries && c'.entries[k] == v
      && (forall j | j in c'.entries && j != k :: j in c.entries && c'.entries[j] == c.entries[j])
      && (k in c.entries || |c.order| < capacity ==> c'.entries == c.entries[k := v])
  {
    ForgetDistinct(c.order, k);
    if k !in c.entries && |c.order| >= capacity {
      var n := |c.order| - 1;
      var kept := c.order[..n];
      assert c.order == kept + [c.order[n]];
      assert forall i | 0 <= i < n :: kept[i] == c.order[i];
      assert c.order[n] !in kept;
    }
  }

  function Elements(s: seq<nat>): set<nat> {
    set k | k in s
  }

  lemma DistinctTail(s: seq<nat>)
    requires Distinct(s) && s != []
    ensures Distinct(s[1..]) && s[0] !in s[1..]
    ensures Elements(s) == {s[0]} + Elements(s[1..])
  {
    assert s == [s[0]] + s[1..];
    assert forall i | 0 <= i < |s[1..]| :: s[1..][i] == s[i + 1];
  }

  lemma {:induction false} DistinctSize(s: seq<nat>)
    requires Distinct(s)
    ensures |Elements(s)| == |s|
  {
    if s == [] {
      assert Elements(s) == {};
    } else {
      DistinctTail(s);
      DistinctSize(s[1..]);
      assert s[0] !in Elements(s[1..]);
    }
  }

  /** The indexes from `low` up to but not including `high`. */
  function Range(low: nat, high: nat): (r: set<nat>)
    ensures forall k: nat :: k in r <==> low <= k < high
    ensures low <= high ==> |r| == high - low
    decreases high
  {
    if low >= high then {} else Range(low, high - 1) + {high - 1}
  }

  /** The cache holds at most its capacity, counted by keys. */
  lemma SizeIsOrder<V>(c: Lru<V>, capacity: nat)
    requires Valid(c, capacity)
    ensures |c.entries.Keys| == |c.order| <= capacity
  {
    DistinctSize(c.order);
    assert c.entries.Keys == Elements(c.order);
  }

  // ----- Which key is evicted -----

  datatype Use<V> = GetKey(key: nat) | PutKey(key: nat, value: V) | PopKey(key: nat)

  function Perform<V>(c: Lru<V>, capacity: nat, use: Use<V>): Lru<V>
    requires capacity > 0
  {
    match use
    case GetKey(k) => Touch(c, k)
    case PutKey(k, v) => PutIn(c, capacity, k, v)
    case PopKey(k) => Pop(c, k)
  }

  function PerformAll<V>(capacity: nat, uses: seq<Use<V>>): Lru<V>
    requires capacity > 0
  {
    if uses == [] then Empty()
    else Perform(PerformAll(capacity, uses[..|uses| - 1]), capacity, uses[|uses| - 1])
  }

  /** When `k` was last got or put, counting from 1; 0 if never. */
  function LastUse<V>(uses: seq<Use<V>>, k: nat): nat {
    if uses == [] then 0
    else if !uses[|uses| - 1].PopKey? && uses[|uses| - 1].key == k then |uses|
    else LastUse(uses[..|uses| - 1], k)
  }

  ghost predicate InUseOrder<V>(order: seq<nat>, uses: seq<Use<V>>) {
    forall i, j | 0 <= i < j < |order| :: LastUse(uses, order[i]) > LastUse(uses, order[j])
  }

  lemma {:induction false} LastUseBound<V>(uses: seq<Use<V>>, k: nat)
    ensures LastUse(uses, k) <= |uses|
  {
    if uses != [] {
      LastUseBound(uses[..|uses| - 1], k);
    }
  }

  /** Dropping a key keeps the order of the others. */
  lemma {:induction false} ForgetKeepsOrder<V>(order: seq<nat>, k: nat, uses: seq<Use<V>>)
    requires InUseOrder(order, uses)
    ensures InUseOrder(Forget(order, k), uses)
  {
    if order != [] {
      var rest := order[1..];
      forall i, j | 0 <= i < j < |rest|
        ensures LastUse(uses, rest[i]) > LastUse(uses, rest[j])
      {
        assert rest[i] == order[i + 1] && rest[j] == order[j + 1];
      }
      ForgetKeepsOrder(rest, k, uses);
      if order[0] != k {
        var kept := Forget(rest, k);
        forall j | 0 <= j < |kept|
          ensures LastUse(uses, order[0]) > LastUse(uses, kept[j])
        {
          assert kept[j] in rest;
          var m :| 0 <= m < |rest| && rest[m] == kept[j];
          assert order[m + 1] == rest[m];
        }
      }
    }
  }

  /** One more use moves its key to the front and leaves the others in order. */
  lemma UsedFirst<V>(others: seq<nat>, uses: seq<Use<V>>, use: Use<V>)
    requires !use.PopKey? && InUseOrder(others, uses) && use.key !in others
    ensures InUseOrder([use.key] + others, uses + [use])
  {
    var all, order := uses + [use], [use.key] + others;
    assert all[..|all| - 1] == uses;
    forall i, j | 0 <= i < j < |order|
      ensures LastUse(all, order[i]) > LastUse(all, order[j])
    {
      assert order[j] == others[j - 1];
      LastUseBound(uses, order[j]);
      assert LastUse(all, order[j]) == LastUse(uses, order[j]);
      if i > 0 {
        assert order[i] == others[i - 1];
      }
    }
  }

  /** A use that moves no key to the front: a removal, or a miss. */
  lemma NotUsed<V>(order: seq<nat>, uses: seq<Use<V>>, use: Use<V>)
    requires InUseOrder(order, uses) && (use.PopKey? || use.key !in order)
    ensures InUseOrder(order, uses + [use])
  {
    assert (uses + [use])[..|uses + [use]| - 1] == uses;
    forall i | 0 <= i < |order|
      ensures LastUse(uses + [use], order[i]) == LastUse(uses, order[i])
    {
    }
  }

  lemma PrefixInOrder<V>(order: seq<nat>, n: nat, uses: seq<Use<V>>)
    requires InUseOrder(order, uses) && n <= |order|
    ensures InUseOrder(order[..n], uses)
  {
  }

  /** However a cache was used, its keys are listed by their last use, latest first. */
  lemma {:induction false} OrderIsByLastUse<V>(capacity: nat, uses: seq<Use<V>>)
    requires capacity > 0
    ensures Valid(PerformAll(capacity, uses), capacity)
    ensures InUseOrder(PerformAll(capacity, uses).order, uses)
  {
    if uses != [] {
      var before, use := uses[..|uses| - 1], uses[|uses| - 1];
      OrderIsByLastUse(capacity, before);
      var c := PerformAll(capacity, before);
      assert uses == before + [use];
      ForgetKeepsOrder(c.order, use.key, before);
      match use {
        case GetKey(k) =>
          TouchValid(c, capacity, k);
          if k in c.entries {
            UsedFirst(Forget(c.order, k), before, use);
          } else {
            NotUsed(c.order, before, use);
          }
        case PutKey(k, v) =>
          PutFacts(c, capacity, k, v);
          PutIsUsedFirst(c, capacity, before, k, v);
        case PopKey(k) =>
          PopValid(c, capacity, k);
          NotUsed(Forget(c.order, k), before, use);
      }
    }
  }

  lemma PutIsUsedFirst<V>(c: Lru<V>, capacity: nat, before: seq<Use<V>>, k: nat, v: V)
    requires capacity > 0 && Valid(c, capacity) && InUseOrder(c.order, before)
    ensures InUseOrder(PutIn(c, capacity, k, v).order, before + [PutKey(k, v)])
  {
    if k in c.entries {
      ForgetKeepsOrder(c.order, k, before);
      UsedFirst(Forget(c.order, k), before, PutKey(k, v));
    } else if |c.order| < capacity {
      UsedFirst(c.order, before, PutKey(k, v));
    } else {
      PrefixInOrder(c.order, |c.order| - 1, before);
      UsedFirst(c.order[..|c.order| - 1], before, PutKey(k, v));
    }
  }

  lemma EvictsLast<V>(c: Lru<V>, capacity: nat, k: nat, v: V, j: nat)
    requires capacity > 0 && Valid(c, capacity) && j in c.entries
    ensures j !in PutIn(c, capacity, k, v).entries <==>
            k !in c.entries && |c.order| == capacity && j == c.order[|c.order| - 1]
  {
  }

  lemma LastIsOldest<V>(c: Lru<V>, capacity: nat, uses: seq<Use<V>>, j: nat)
    requires Valid(c, capacity) && InUseOrder(c.order, uses) && j in c.entries
    ensures j == c.order[|c.order| - 1] <==>
            forall x | x in c.entries && x != j :: LastUse(uses, x) > LastUse(uses, j)
  {
    var oldest := c.order[|c.order| - 1];
    assert oldest in c.order;
    if j == oldest {
      forall x | x in c.entries && x != j
        ensures LastUse(uses, x) > LastUse(uses, j)
      {
        var i :| 0 <= i < |c.order| && c.order[i] == x;
      }
    } else {
      var i :| 0 <= i < |c.order| && c.order[i] == j;
      assert LastUse(uses, j) > LastUse(uses, oldest);
    }
  }

  /** A put evicts a key exactly when the cache is full and the key put is new, and
      the key it evicts is the one whose last use is longest ago. */
  lemma EvictsLeastRecentlyUsed<V>(capacity: nat, uses: seq<Use<V>>, k: nat, v: V, j: nat)
    requires capacity > 0 && j in PerformAll(capacity, uses).entries
    ensures
      var c := PerformAll(capacity, uses);
      j !in PutIn(c, capacity, k, v).entries <==>
        && k !in c.entries && |c.entries.Keys| == capacity
        && forall x | x in c.entries && x != j :: LastUse(uses, x) > LastUse(uses, j)
  {
    var c := PerformAll(capacity, uses);
    OrderIsByLastUse(capacity, uses);
    SizeIsOrder(c, capacity);
    EvictsLast(c, capacity, k, v, j);
    LastIsOldest(c, capacity, uses, j);
  }
}
