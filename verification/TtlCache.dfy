/** The bounded TTL cache of role lookups. Map iteration visits the keys in an arbitrary order; the
    contracts hold for every one. */
module TtlCaches {
  import opened Common

  type Key = nat
  type Value = nat

  datatype Entry = Entry(value: Value, expiresAt: Time)

  predicate ExpiredAt(e: Entry, now: Time) {
    now > e.expiresAt
  }

  /** The entries that have not expired. */
  function Live(entries: map<Key, Entry>, now: Time): map<Key, Entry> {
    map k | k in entries && !ExpiredAt(entries[k], now) :: entries[k]
  }

  /** E holds n entries, or all if there are fewer, and nothing left outside expires sooner. */
  predicate Soonest(entries: map<Key, Entry>, n: nat, E: set<Key>) {
    && E <= entries.Keys
    && |E| == (if n < |entries| then n else |entries|)
    && forall a, b | a in E && b in entries && b !in E :: entries[a].expiresAt <= entries[b].expiresAt
  }

  /** The candidates for eviction after a pass over the keys `seen`. */
  predicate Candidates(entries: map<Key, Entry>, seen: seq<Key>, n: nat, oldest: seq<Key>) {
    && |oldest| == (if n < |seen| then n else |seen|)
    && (forall p, q | 0 <= p < q < |oldest| :: oldest[p] != oldest[q])
    && (forall b | b in seen :: b in entries)
    && (forall a | a in oldest :: a in seen)
    && (forall a, b | a in oldest && b in seen && b !in oldest :: entries[a].expiresAt <= entries[b].expiresAt)
  }

  /** When no two entries expire together there is only one such set, so the result of an eviction
      does not depend on the iteration order. */
  lemma SoonestUnique(entries: map<Key, Entry>, n: nat, E: set<Key>, F: set<Key>)
    requires Soonest(entries, n, E) && Soonest(entries, n, F)
    requires forall a, b | a in entries && b in entries && a != b :: entries[a].expiresAt != entries[b].expiresAt
    ensures E == F
  {
    forall a
      ensures a in E <==> a in F
    {
      if a in E && a !in F {
        var b := TiedWith(entries, n, E, F, a);
      } else if a in F && a !in E {
        var b := TiedWith(entries, n, F, E, a);
      }
    }
  }

  /** An entry that one eviction takes and another keeps ties with one the other way round. */
  lemma TiedWith(entries: map<Key, Entry>, n: nat, E: set<Key>, F: set<Key>, a: Key) returns (b: Key)
    requires Soonest(entries, n, E) && Soonest(entries, n, F) && a in E && a !in F
    ensures b in F && b !in E && a in entries && b in entries && entries[a].expiresAt == entries[b].expiresAt
  {
    if F - E == {} {
      assert a !in F;
      Outgrow(F, E);
    }
    b :| b in F - E;
  }

  lemma Outgrow(E: set<Key>, F: set<Key>)
    requires E - F == {} && E != F
    ensures |E| < |F|
  {
    assert E <= F;
    var rest := F - E;
    assert F == E + rest && rest != {};
  }

  /** What callers did to a key: stored it with an expiry, or deleted it. */
  datatype Event = Stored(key: Key, entry: Entry) | Deleted(key: Key)

  /** The value stored last for this key and not deleted since. */
  function Latest(history: seq<Event>, key: Key): Option<Entry> {
    if history == [] then None
    else
      var last := history[|history| - 1];
      if last.key != key then Latest(history[..|history| - 1], key)
      else if last.Stored? then Some(last.entry)
      else None
  }

  lemma LatestAppend(history: seq<Event>, e: Event)
    ensures forall k :: Latest(history + [e], k) == if k != e.key then Latest(history, k)
                                                    else if e.Stored? then Some(e.entry) else None
  {
    assert (history + [e])[..|history|] == history;
  }

  function Capacity(maxSize: int): nat {
    if maxSize < 1 then 1 else maxSize
  }

  /** How many entries a full cache drops at once. */
  function Batch(maxSize: int): nat {
    if maxSize / 10 < 1 then 1 else maxSize / 10
  }

  /** An entry is live up to and including its expiry, and unchanged. */
  lemma LiveMeaning(entries: map<Key, Entry>, now: Time, k: Key)
    ensures k in Live(entries, now) <==> k in entries && now <= entries[k].expiresAt
    ensures k in Live(entries, now) ==> Live(entries, now)[k] == entries[k]
  {
  }

  /** A tenth of the cache, at least one entry. */
  lemma BatchMeaning(maxSize: int)
    ensures Batch(maxSize) >= 1 && (maxSize < 10 ==> Batch(maxSize) == 1)
    ensures maxSize >= 10 ==> 10 * Batch(maxSize) <= maxSize < 10 * Batch(maxSize) + 10
    ensures Capacity(maxSize) >= 1 && (maxSize >= 1 ==> Capacity(maxSize) == maxSize)
  {
  }

  class TTLCache {
    var entries: map<Key, Entry>
    const ttl: int
    const maxSize: int
    ghost var history: seq<Event>

    constructor (ttl: int, maxSize: int)
      ensures Valid() && entries == map[] && history == []
      ensures this.ttl == ttl && this.maxSize == maxSize
    {
      this.ttl, this.maxSize := ttl, maxSize;
      entries, history := map[], [];
    }

    /** The cache is bounded and holds nothing but what was stored last. */
    ghost predicate Valid()
      reads this
    {
      && |entries| <= Capacity(maxSize)
      && forall k | k in entries :: Latest(history, k) == Some(entries[k])
    }

    /** The keys in an order of the map's choosing. */
    method Keys() returns (order: seq<Key>)
      ensures |order| == |entries| && forall k :: k in order <==> k in entries
      ensures forall i, j | 0 <= i < j < |order| :: order[i] != order[j]
    {
      order := [];
      var rest := entries.Keys;
      while rest != {}
        invariant rest <= entries.Keys && |order| + |rest| == |entries|
        invariant forall k :: k in order <==> k in entries && k !in rest
        invariant forall i, j | 0 <= i < j < |order| :: order[i] != order[j]
        decreases |rest|
      {
        var k :| k in rest;
        rest := rest - {k};
        order := order + [k];
      }
    }

    /** A hit is the value stored last, not deleted since and not expired; everything else is a
        miss, and an expired entry is dropped. */
    method Get(key: Key, now: Time) returns (r: Option<Value>)
      requires Valid()
      modifies this
      ensures Valid() && history == old(history)
      ensures r.Some? <==> key in old(entries) && now <= old(entries)[key].expiresAt
      ensures r.Some? ==>
                Latest(history, key).Some? && r.value == Latest(history, key).value.value && now <= Latest(history, key).value.expiresAt
      ensures entries == if r == None then old(entries) - {key} else old(entries)
    {
      if key !in entries {
        assert entries - {key} == entries;
        return None;
      }
      var e := entries[key];
      if ExpiredAt(e, now) {
        Drop(key);
        return None;
      }
      r := Some(e.value);
    }

    /** Takes a key out of the map, whatever is stored there by now. */
    method Drop(key: Key)
      requires Valid()
      modifies `entries
      ensures Valid() && entries == old(entries) - {key}
    {
      entries := entries - {key};
      Shrunk(entries, old(entries));
    }

    method Delete(key: Key)
      requires Valid()
      modifies this
      ensures Valid() && entries == old(entries) - {key} && history == old(history) + [Deleted(key)]
      ensures Latest(history, key) == None
    {
      LatestAppend(history, Deleted(key));
      entries := entries - {key};
      Shrunk(entries, old(entries));
      history := history + [Deleted(key)];
    }

    /** Stores a value. Room is only made when the cache is full: first the expired entries go, all
        of them and no others; if it is still full, a batch of those that expire soonest. */
    method Set(key: Key, value: Value, sweepAt: Time, now: Time)
      requires Valid()
      modifies this
      ensures Valid() && |entries| <= Capacity(maxSize)
      ensures history == old(history) + [Stored(key, Entry(value, now + ttl))]
      ensures var live := Live(old(entries), sweepAt);
              if |old(entries)| < maxSize then entries == old(entries)[key := Entry(value, now + ttl)]
              else if |live| < maxSize then entries == live[key := Entry(value, now + ttl)]
              else exists E :: Soonest(live, Batch(maxSize), E) && entries == (live - E)[key := Entry(value, now + ttl)]
    {
      ghost var E: set<Key> := {};
      if |entries| >= maxSize {
        Sweep(sweepAt);
        if |entries| >= maxSize {
          E := EvictOldest(maxSize / 10);
        }
      }
      LatestAppend(history, Stored(key, Entry(value, now + ttl)));
      history := history + [Stored(key, Entry(value, now + ttl))];
      Grown(entries, key, Entry(value, now + ttl));
      entries := entries[key := Entry(value, now + ttl)];
    }

    /** Drops the expired entries. */
    method Sweep(now: Time)
      requires Valid()
      modifies `entries
      ensures Valid() && entries == Live(old(entries), now)
    {
      var order := Keys();
      for i := 0 to |order|
        invariant forall k :: k in entries <==> k in old(entries) && (k in order[..i] ==> !ExpiredAt(old(entries)[k], now))
        invariant forall k | k in entries :: entries[k] == old(entries)[k]
      {
        if ExpiredAt(entries[order[i]], now) {
          entries := entries - {order[i]};
        }
      }
      assert order[..|order|] == order;
      assert entries == Live(old(entries), now);
      Shrunk(entries, old(entries));
    }

    /** Drops the n entries that expire soonest, at least one, whatever the iteration order. */
    method EvictOldest(n0: int) returns (ghost E: set<Key>)
      requires Valid()
      modifies `entries
      ensures Valid() && entries == old(entries) - E
      ensures Soonest(old(entries), if n0 <= 0 then 1 else n0, E)
    {
      var n := if n0 <= 0 then 1 else n0;
      var order := Keys();
      var oldest := PickOldest(order, n);
      E := set k | k in oldest;
      DistinctSize(oldest, E);
      DropAll(oldest);
      assert entries == old(entries) - E;
      Shrunk(entries, old(entries));
    }

    method DropAll(ks: seq<Key>)
      modifies `entries
      ensures forall k :: k in entries <==> k in old(entries) && k !in ks
      ensures forall k | k in entries :: entries[k] == old(entries)[k]
    {
      for i := 0 to |ks|
        invariant forall k :: k in entries <==> k in old(entries) && k !in ks[..i]
        invariant forall k | k in entries :: entries[k] == old(entries)[k]
      {
        assert forall k :: k in ks[..i + 1] <==> k in ks[..i] || k == ks[i];
        entries := entries - {ks[i]};
      }
      assert ks[..|ks|] == ks;
    }

    /** One pass over the keys. */
    method PickOldest(order: seq<Key>, n: nat) returns (oldest: seq<Key>)
      requires n >= 1 && |order| == |entries| && (forall k :: k in order <==> k in entries)
      requires forall i, j | 0 <= i < j < |order| :: order[i] != order[j]
      ensures Candidates(entries, order, n, oldest)
    {
      oldest := [];
      for i := 0 to |order|
        invariant Candidates(entries, order[..i], n, oldest)
      {
        var k := order[i];
        assert k in entries && k !in order[..i];
        oldest := Consider(order[..i], k, order[..i + 1], n, oldest);
      }
      assert order[..|order|] == order;
    }

    /** A key joins while there is room; after that it replaces the latest-expiring candidate if it
        expires sooner. */
    method Consider(ghost seen: seq<Key>, k: Key, ghost seen': seq<Key>, n: nat, oldest: seq<Key>) returns (oldest': seq<Key>)
      requires n >= 1 && Candidates(entries, seen, n, oldest) && k in entries && k !in seen && seen' == seen + [k]
      requires forall i, j | 0 <= i < j < |seen| :: seen[i] != seen[j]
      ensures Candidates(entries, seen', n, oldest')
    {
      assert forall b :: b in seen' <==> b in seen || b == k;
      if |oldest| < n {
        AllPicked(oldest, seen);
        return oldest + [k];
      }
      var maxIdx := Latestest(oldest);
      if entries[k].expiresAt < entries[oldest[maxIdx]].expiresAt {
        oldest' := oldest[maxIdx := k];
        Replaced(oldest, maxIdx, k, oldest');
      } else {
        oldest' := oldest;
      }
    }

    /** The index of a candidate that expires last. */
    method Latestest(oldest: seq<Key>) returns (maxIdx: nat)
      requires |oldest| >= 1 && forall a | a in oldest :: a in entries
      ensures maxIdx < |oldest| && forall a | a in oldest :: entries[a].expiresAt <= entries[oldest[maxIdx]].expiresAt
    {
      maxIdx := 0;
      for i := 1 to |oldest|
        invariant maxIdx < |oldest| && forall j | 0 <= j < i :: entries[oldest[j]].expiresAt <= entries[oldest[maxIdx]].expiresAt
      {
        if entries[oldest[i]].expiresAt > entries[oldest[maxIdx]].expiresAt {
          maxIdx := i;
        }
      }
    }
  }

  lemma Shrunk(m: map<Key, Entry>, m': map<Key, Entry>)
    requires m.Keys <= m'.Keys
    ensures |m| <= |m'|
  {
    var rest := m'.Keys - m.Keys;
    assert m'.Keys == m.Keys + rest;
    assert |m| == |m.Keys| && |m'| == |m'.Keys|;
  }

  lemma Grown(m: map<Key, Entry>, k: Key, e: Entry)
    ensures |m[k := e]| <= |m| + 1
  {
    assert m[k := e].Keys == m.Keys + {k};
    assert |m[k := e]| == |m[k := e].Keys| && |m| == |m.Keys|;
  }

  lemma {:induction false} DistinctSize(ks: seq<Key>, E: set<Key>)
    requires (forall i, j | 0 <= i < j < |ks| :: ks[i] != ks[j]) && E == set k | k in ks
    ensures |E| == |ks|
  {
    if ks != [] {
      var n := |ks| - 1;
      var F := set k | k in ks[..n];
      DistinctSize(ks[..n], F);
      assert E == F + {ks[n]};
    }
  }

  /** As many distinct members of a list as it has are all of them. */
  lemma AllPicked(picked: seq<Key>, from: seq<Key>)
    requires |picked| == |from| && forall i, j | 0 <= i < j < |picked| :: picked[i] != picked[j]
    requires forall i, j | 0 <= i < j < |from| :: from[i] != from[j]
    requires forall a | a in picked :: a in from
    ensures forall b | b in from :: b in picked
  {
    var P, F := set k | k in picked, set k | k in from;
    DistinctSize(picked, P);
    DistinctSize(from, F);
    assert P <= F;
    if P != F {
      Outgrow(P, F);
    }
    forall b | b in from
      ensures b in picked
    {
      assert b in F;
    }
  }

  lemma Replaced(before: seq<Key>, i: nat, k: Key, after: seq<Key>)
    requires i < |before| && after == before[i := k] && k !in before
    requires forall p, q | 0 <= p < q < |before| :: before[p] != before[q]
    ensures forall p, q | 0 <= p < q < |after| :: after[p] != after[q]
    ensures forall a :: a in after <==> a == k || (a in before && a != before[i])
  {
    forall a
      ensures a in after <==> a == k || (a in before && a != before[i])
    {
      if a in before && a != before[i] {
        var j :| 0 <= j < |before| && before[j] == a;
        assert after[j] == a;
      }
      assert after[i] == k;
    }
  }
}
