/** The least-recently-used caches of compiled schemas (rustium-format-avro and rustium-format-protobuf, lib.rs). */
module SchemaCaches {
  import opened Prelude

  // ---- Order of last use ----

  function Without<T(==)>(s: seq<T>, x: T): seq<T> {
    if s == [] then []
    else if s[|s| - 1] == x then Without(s[..|s| - 1], x)
    else Without(s[..|s| - 1], x) + [s[|s| - 1]]
  }

  /** The distinct requests, in order of their last use. */
  function ByLastUse<T(==)>(requests: seq<T>): seq<T> {
    if requests == [] then []
    else Without(ByLastUse(requests[..|requests| - 1]), requests[|requests| - 1]) + [requests[|requests| - 1]]
  }

  /** The end of a list that a cache of this capacity retains; a capacity of zero never evicts. */
  function Retained<T>(s: seq<T>, capacity: nat): seq<T> {
    if capacity == 0 || |s| <= capacity then s else s[|s| - capacity..]
  }

  ghost predicate NoRepeats<T>(s: seq<T>) { forall i, j | 0 <= i < j < |s| :: s[i] != s[j] }

  lemma {:induction false} WithoutElements<T(!new)>(s: seq<T>, x: T)
    ensures x !in Without(s, x) && forall y :: y in Without(s, x) <==> y in s && y != x
  {
    if s != [] {
      WithoutElements(s[..|s| - 1], x);
      assert s == s[..|s| - 1] + [s[|s| - 1]];
    }
  }

  lemma {:induction false} WithoutConcat<T(!new)>(a: seq<T>, b: seq<T>, x: T)
    ensures Without(a + b, x) == Without(a, x) + Without(b, x)
  {
    if b == [] {
      assert a + b == a;
    } else {
      assert (a + b)[..|a + b| - 1] == a + b[..|b| - 1];
      WithoutConcat(a, b[..|b| - 1], x);
    }
  }

  lemma {:induction false} WithoutAbsent<T(!new)>(s: seq<T>, x: T)
    requires x !in s
    ensures Without(s, x) == s
  {
    if s != [] {
      WithoutAbsent(s[..|s| - 1], x);
    }
  }

  /** Removing the one occurrence. */
  lemma WithoutAt<T(!new)>(s: seq<T>, i: nat)
    requires NoRepeats(s) && i < |s|
    ensures Without(s, s[i]) == s[..i] + s[i + 1..]
    ensures |Without(s, s[i])| == |s| - 1
  {
    hide Without;
    var x, a, b := s[i], s[..i], s[i + 1..];
    assert x !in a && x !in b;
    assert s == a + ([x] + b);
    WithoutConcat(a, [x] + b, x);
    WithoutConcat([x], b, x);
    WithoutSelf(x);
    WithoutAbsent(a, x);
    WithoutAbsent(b, x);
    assert [] + b == b;
  }

  lemma WithoutSelf<T(!new)>(x: T)
    ensures Without([x], x) == []
  {
    assert [x][..0] == [];
  }

  lemma {:induction false} WithoutNoRepeats<T(!new)>(s: seq<T>, x: T)
    requires NoRepeats(s)
    ensures NoRepeats(Without(s, x) + [x])
  {
    if x in s {
      var i :| 0 <= i < |s| && s[i] == x;
      WithoutAt(s, i);
    } else {
      WithoutAbsent(s, x);
    }
  }

  lemma {:induction false} ByLastUseNoRepeats<T(!new)>(requests: seq<T>)
    ensures NoRepeats(ByLastUse(requests))
  {
    if requests != [] {
      var front := requests[..|requests| - 1];
      ByLastUseNoRepeats(front);
      WithoutNoRepeats(ByLastUse(front), requests[|requests| - 1]);
    }
  }

  lemma {:induction false} ByLastUseElements<T(!new)>(requests: seq<T>)
    ensures forall y :: y in ByLastUse(requests) <==> y in requests
  {
    if requests != [] {
      var front, x := requests[..|requests| - 1], requests[|requests| - 1];
      ByLastUseElements(front);
      WithoutElements(ByLastUse(front), x);
      assert requests == front + [x];
    }
  }

  /** Where `x` was last requested. */
  function LastIndex<T(==)>(requests: seq<T>, x: T): (i: nat)
    requires x in requests
    ensures i < |requests| && requests[i] == x
  {
    if requests[|requests| - 1] == x then |requests| - 1 else LastIndex(requests[..|requests| - 1], x)
  }

  /** The list holds requested elements, the more recently used ones later. */
  ghost predicate Ascending<T(!new)>(requests: seq<T>, list: seq<T>) {
    && (forall i | 0 <= i < |list| :: list[i] in requests)
    && (forall i, j | 0 <= i < j < |list| :: LastIndex(requests, list[i]) < LastIndex(requests, list[j]))
  }

  /** `ByLastUse` lists exactly the requests made, without repeats and by the time of their last use. */
  lemma {:induction false} ByLastUseAscends<T(!new)>(requests: seq<T>)
    ensures forall y :: y in ByLastUse(requests) <==> y in requests
    ensures NoRepeats(ByLastUse(requests)) && Ascending(requests, ByLastUse(requests))
  {
    ByLastUseElements(requests);
    ByLastUseNoRepeats(requests);
    if requests != [] {
      var front, x := requests[..|requests| - 1], requests[|requests| - 1];
      ByLastUseAscends(front);
      AscendingWithout(front, ByLastUse(front), x);
      AscendingSnoc(front, Without(ByLastUse(front), x), x);
      assert front + [x] == requests;
    }
  }

  lemma AscendingWithout<T(!new)>(requests: seq<T>, list: seq<T>, x: T)
    requires NoRepeats(list) && Ascending(requests, list)
    ensures Ascending(requests, Without(list, x)) && x !in Without(list, x)
  {
    WithoutElements(list, x);
    if x in list {
      var k :| 0 <= k < |list| && list[k] == x;
      WithoutAt(list, k);
    } else {
      WithoutAbsent(list, x);
    }
  }

  lemma AscendingSnoc<T(!new)>(front: seq<T>, list: seq<T>, x: T)
    requires Ascending(front, list) && x !in list
    ensures Ascending(front + [x], list + [x])
  {
    var requests := front + [x];
    assert requests[..|requests| - 1] == front;
    assert LastIndex(requests, x) == |front|;
    forall i | 0 <= i < |list|
      ensures list[i] in requests && LastIndex(requests, list[i]) == LastIndex(front, list[i])
    {
      assert requests[LastIndex(front, list[i])] == list[i];
    }
  }

  // ---- One request ----

  /** A list is what it dropped followed by what it retains. */
  lemma Split<T(!new)>(used: seq<T>, capacity: nat)
    ensures var kept := Retained(used, capacity);
            && |kept| <= |used| && used == used[..|used| - |kept|] + kept
            && (capacity != 0 ==> |kept| <= capacity)
            && (used != kept ==> capacity != 0 && |kept| == capacity)
  {
  }

  lemma RetainedOf<T(!new)>(dropped: seq<T>, kept: seq<T>, capacity: nat)
    requires capacity != 0 ==> |kept| <= capacity
    requires dropped != [] ==> capacity != 0 && |kept| == capacity
    ensures Retained(dropped + kept, capacity) == kept
  {
    if dropped == [] {
      assert dropped + kept == kept;
    }
  }

  lemma Regroup<T(!new)>(a: seq<T>, b: seq<T>, x: T)
    requires b != []
    ensures (a + b) + [x] == (a + [b[0]]) + (b[1..] + [x])
  {
  }

  lemma SuffixNoRepeats<T(!new)>(a: seq<T>, b: seq<T>)
    requires NoRepeats(a + b)
    ensures NoRepeats(b)
  {
    var s := a + b;
    assert forall i | 0 <= i < |b| :: b[i] == s[|a| + i];
  }

  /** Using a retained entry moves it to the end. */
  lemma Hit<T(!new)>(used: seq<T>, capacity: nat, i: nat)
    requires NoRepeats(used) && i < |Retained(used, capacity)|
    ensures var kept, x := Retained(used, capacity), Retained(used, capacity)[i];
            Retained(Without(used, x) + [x], capacity) == kept[..i] + kept[i + 1..] + [x]
  {
    hide Without;
    var kept := Retained(used, capacity);
    var x, d := kept[i], |used| - |kept|;
    var dropped, moved := used[..d], kept[..i] + kept[i + 1..] + [x];
    WithoutAt(used, d + i);
    assert used[..d + i] == dropped + kept[..i] && used[d + i + 1..] == kept[i + 1..];
    assert Without(used, x) + [x] == dropped + moved;
    RetainedOf(dropped, moved, capacity);
  }

  /** Using an entry that is not retained evicts the oldest one when the cache is full. */
  lemma Miss<T(!new)>(used: seq<T>, capacity: nat, x: T)
    requires x !in Retained(used, capacity)
    ensures var kept := Retained(used, capacity);
            Retained(Without(used, x) + [x], capacity)
            == (if capacity != 0 && |kept| == capacity then kept[1..] else kept) + [x]
  {
    hide Without, Retained;
    Split(used, capacity);
    var kept := Retained(used, capacity);
    var dropped := used[..|used| - |kept|];
    WithoutConcat(dropped, kept, x);
    WithoutAbsent(kept, x);
    if capacity != 0 && |kept| == capacity {
      Regroup(Without(dropped, x), kept, x);
      RetainedOf(Without(dropped, x) + [kept[0]], kept[1..] + [x], capacity);
    } else {
      WithoutAbsent(dropped, x);
      assert Without(used, x) + [x] == [] + (kept + [x]);
      RetainedOf([], kept + [x], capacity);
    }
  }

  lemma {:induction false} Cardinality<T(!new)>(s: seq<T>)
    requires NoRepeats(s)
    ensures |set x | x in s| == |s|
  {
    if s != [] {
      var front, x := s[..|s| - 1], s[|s| - 1];
      Cardinality(front);
      assert (set y | y in s) == (set y | y in front) + {x};
    }
  }

  class SchemaCache<K(==,!new), V> {
    const compile: K -> Result<V>
    const capacity: nat
    var schemas: map<K, V>
    var order: seq<K>
    /** The keys of all requests that succeeded. */
    ghost var requests: seq<K>

    ghost predicate Valid()
      reads this
    {
      && order == Retained(ByLastUse(requests), capacity)
      && schemas.Keys == set k | k in order
      && forall k | k in schemas :: compile(k) == Ok(schemas[k])
    }

    constructor (compile: K -> Result<V>, capacity: nat)
      ensures Valid() && requests == [] && this.compile == compile && this.capacity == capacity
    {
      this.compile := compile;
      this.capacity := capacity;
      schemas := map[];
      order := [];
      requests := [];
    }

    /** The order lists the keys of the map once each. */
    lemma OrderedKeys()
      requires Valid()
      ensures NoRepeats(order) && |order| == |schemas|
      ensures forall k :: k in order <==> k in schemas
    {
      hide ByLastUse, Retained, NoRepeats;
      var used := ByLastUse(requests);
      ByLastUseNoRepeats(requests);
      Split(used, capacity);
      SuffixNoRepeats(used[..|used| - |order|], order);
      Cardinality(order);
      assert schemas.Keys == set k | k in order;
    }

    /** Moves a cached key to the end of the order. */
    method Touch(key: K)
      requires Valid() && key in order
      modifies this`order, this`requests
      ensures Valid() && requests == old(requests) + [key]
    {
      hide Without, NoRepeats, ByLastUse, Retained;
      OrderedKeys();
      var i := 0;
      while order[i] != key
        invariant i < |order| && order == old(order) && requests == old(requests)
        invariant key in order[i..]
        decreases |order| - i
      {
        assert order[i..] == [order[i]] + order[i + 1..];
        i := i + 1;
      }
      MovedToEnd(i);
      order := order[..i] + order[i + 1..] + [key];
      requests := requests + [key];
    }

    lemma MovedToEnd(i: nat)
      requires Valid() && i < |order|
      ensures var moved := order[..i] + order[i + 1..] + [order[i]];
              && moved == Retained(ByLastUse(requests + [order[i]]), capacity)
              && (set k | k in moved) == (set k | k in order)
    {
      ByLastUseNoRepeats(requests);
      Hit(ByLastUse(requests), capacity, i);
      var key := order[i];
      assert (requests + [key])[..|requests|] == requests;
      assert order == order[..i] + [key] + order[i + 1..];
    }

    lemma Appended(key: K)
      requires Valid() && key !in schemas
      ensures (if capacity != 0 && |order| == capacity then order[1..] else order) + [key]
              == Retained(ByLastUse(requests + [key]), capacity)
    {
      ByLastUseNoRepeats(requests);
      Miss(ByLastUse(requests), capacity, key);
      assert (requests + [key])[..|requests|] == requests;
    }

    /**
     * Answers what a fresh compilation would. A failure leaves the cache as it is; a success makes the key the most
     * recent one.
     */
    method GetOrParse(key: K) returns (result: Result<V>)
      requires Valid()
      modifies this
      ensures Valid()
      ensures result == compile(key)
      ensures result.Err? ==> schemas == old(schemas) && order == old(order) && requests == old(requests)
      ensures result.Ok? ==> requests == old(requests) + [key]
    {
      hide Without, NoRepeats, ByLastUse, Retained;
      OrderedKeys();
      if key in schemas {
        var schema := schemas[key];
        Touch(key);
        return Ok(schema);
      }
      var compiled := compile(key);
      if compiled.Err? {
        return compiled;
      }
      Appended(key);
      if |schemas| == capacity && order != [] {
        Evicted();
        schemas := schemas - {order[0]};
        order := order[1..];
      }
      order := order + [key];
      schemas := schemas[key := compiled.value];
      requests := requests + [key];
      return compiled;
    }

    lemma Evicted()
      requires Valid() && order != []
      ensures (schemas - {order[0]}).Keys == set k | k in order[1..]
    {
      OrderedKeys();
      hide Valid, ByLastUse, Retained;
      assert order == [order[0]] + order[1..];
      assert order[0] !in order[1..];
    }
  }
}
