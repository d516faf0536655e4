// What a cache holds after a sequence of puts, read off the sequence itself.
module LruHistory {
  import opened LruModel
  import opened Wrappers

  // The puts scanned from the newest to the oldest, keeping each key's newest put.
  ghost function Recency<K, V>(puts: seq<Entry<K, V>>, seen: set<K>): seq<Entry<K, V>> {
    if |puts| == 0 then []
    else
      var n := |puts| - 1;
      if puts[n].key in seen then Recency(puts[..n], seen)
      else [puts[n]] + Recency(puts[..n], seen + {puts[n].key})
  }

  ghost function RunPuts<K, V>(c: Cache<K, V>, puts: seq<Entry<K, V>>): Cache<K, V> {
    if |puts| == 0 then c else Put(RunPuts(c, puts[..|puts| - 1]), puts[|puts| - 1])
  }

  // How many of n entries survive: capacity 0 keeps them all.
  function Kept(capacity: nat, n: nat): nat {
    if capacity == 0 then n else Min(capacity, n)
  }

  lemma {:induction false} RecencyKeys<K, V>(puts: seq<Entry<K, V>>, seen: set<K>)
    ensures var r := Recency(puts, seen);
            Unique(r) && KeySet(r) == KeySet(puts) - seen
  {
    if |puts| > 0 {
      var n := |puts| - 1;
      assert puts == puts[..n] + [puts[n]];
      KeySetSnoc(puts[..n], puts[n]);
      if puts[n].key in seen {
        RecencyKeys(puts[..n], seen);
      } else {
        var r := Recency(puts[..n], seen + {puts[n].key});
        RecencyKeys(puts[..n], seen + {puts[n].key});
        ConsKeys(puts[n], r);
        assert puts[n].key !in KeySet(r);
      }
    }
  }

  lemma RecencyCount<K, V>(puts: seq<Entry<K, V>>)
    ensures |Recency(puts, {})| == |KeySet(puts)|
  {
    RecencyKeys(puts, {});
    CountKeys(Recency(puts, {}));
    assert KeySet(puts) - {} == KeySet(puts);
  }

  lemma KeySetSnoc<K, V>(items: seq<Entry<K, V>>, e: Entry<K, V>)
    ensures KeySet(items + [e]) == KeySet(items) + {e.key}
  {
    forall k | k in KeySet(items) + {e.key} ensures k in KeySet(items + [e]) {
      if k in KeySet(items) {
        var i :| 0 <= i < |items| && items[i].key == k;
        assert (items + [e])[i].key == k;
      } else {
        assert (items + [e])[|items|].key == k;
      }
    }
  }

  lemma {:induction false} RecencySeen<K, V>(puts: seq<Entry<K, V>>, seen: set<K>, key: K)
    ensures Recency(puts, seen + {key}) == Without(Recency(puts, seen), key)
  {
    if |puts| > 0 {
      var n := |puts| - 1;
      var k := puts[n].key;
      if k in seen {
        RecencySeen(puts[..n], seen, key);
      } else {
        RecencySeen(puts[..n], seen + {k}, key);
        assert seen + {k} + {key} == seen + {key} + {k};
        var tail := Recency(puts[..n], seen + {k});
        assert Recency(puts, seen)[1..] == tail;
        if k == key {
          assert seen + {k} == seen + {key};
          assert seen + {k} + {key} == seen + {k};
        }
      }
    }
  }

  // Deleting a key from the first m entries, or from all of them before cutting.
  lemma WithoutPrefixHit<K, V>(items: seq<Entry<K, V>>, key: K, m: nat)
    requires Unique(items) && m <= |items| && Has(items[..m], key)
    ensures m >= 1 && |Without(items, key)| >= m - 1 && Without(items[..m], key) == Without(items, key)[..m - 1]
  {
    hide IndexOf, Without, Unique;
    var i :| 0 <= i < m && items[i].key == key;
    PrefixUnique(items, m);
    assert items[..m][i] == items[i];
    KeyPlace(items, i);
    KeyPlace(items[..m], i);
    WithoutIndex(items, key);
    WithoutIndex(items[..m], key);
    CutPrefix(items, i, m);
  }

  lemma PrefixUnique<K, V>(items: seq<Entry<K, V>>, m: nat)
    requires Unique(items) && m <= |items|
    ensures Unique(items[..m])
  {
  }

  lemma CutPrefix<T>(s: seq<T>, i: nat, m: nat)
    requires i < m <= |s|
    ensures var rest := s[..i] + s[i + 1..];
            |rest| >= m - 1 && s[..m][..i] + s[..m][i + 1..] == rest[..m - 1]
  {
  }

  lemma WithoutPrefixMiss<K, V>(items: seq<Entry<K, V>>, key: K, m: nat)
    requires Unique(items) && 1 <= m <= |items| && !Has(items[..m], key)
    ensures |Without(items, key)| >= m - 1 && Without(items, key)[..m - 1] == items[..m - 1]
  {
    var i := IndexOf(items, key);
    WithoutIndex(items, key);
    assert i < m ==> Has(items[..m], key);
  }

  // One put on a cache that holds the first entries of a recency list.
  lemma PutStep<K, V>(c: Cache<K, V>, r: seq<Entry<K, V>>, e: Entry<K, V>)
    requires Unique(r) && c.items == r[..Kept(c.capacity, |r|)]
    ensures var all := [e] + Without(r, e.key);
            Put(c, e).items == all[..Kept(c.capacity, |all|)]
  {
    var m := Kept(c.capacity, |r|);
    WithoutKeys(r, e.key);
    var all := [e] + Without(r, e.key);
    if Has(c.items, e.key) {
      var i := IndexOf(c.items, e.key);
      assert r[i].key == e.key;
      assert Has(r, e.key);
      WithoutPrefixHit(r, e.key, m);
      assert all[..m] == [e] + Without(r, e.key)[..m - 1];
    } else if m == |r| {
      assert c.items == r;
      WithoutAbsent(r, e.key);
      if c.capacity > 0 && m == c.capacity {
        assert all[..m] == [e] + r[..m - 1];
      } else {
        assert all[..|all|] == all;
      }
    } else {
      assert m == c.capacity;
      WithoutPrefixMiss(r, e.key, m);
      assert |all| >= m;
      assert all[..m] == [e] + Without(r, e.key)[..m - 1];
      assert EvictLast(c.items) == r[..m - 1];
    }
  }

  // After any sequence of puts on an empty cache of any capacity: the newest put of each key, in
  // order of last put, cut to the capacity -- and not cut at all when the capacity is 0.
  lemma {:induction false} PutOnly<K, V>(capacity: nat, puts: seq<Entry<K, V>>)
    ensures var r := Recency(puts, {});
            var c := RunPuts(Empty(capacity), puts);
            c.capacity == capacity && c.items == r[..Kept(capacity, |r|)] && |r| == |KeySet(puts)|
  {
    RecencyCount(puts);
    if |puts| > 0 {
      var n := |puts| - 1;
      var b := RunPuts(Empty(capacity), puts[..n]);
      PutOnly(capacity, puts[..n]);
      RecencyKeys(puts[..n], {});
      PutStep(b, Recency(puts[..n], {}), puts[n]);
      RecencySeen(puts[..n], {}, puts[n].key);
    }
  }
}
