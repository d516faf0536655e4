// The cache as its users see it: a bounded list of entries, most recently used first.
module LruModel {
  import opened Wrappers

  datatype Entry<K, V> = Entry(key: K, value: V)

  datatype Cache<K, V> = Cache(capacity: nat, items: seq<Entry<K, V>>, hits: nat, misses: nat)

  datatype Op<K, V> = Lookup(key: K) | Store(entry: Entry<K, V>) | Resize(capacity: nat)

  function Empty<K, V>(capacity: nat): Cache<K, V> {
    Cache(capacity, [], 0, 0)
  }

  ghost predicate Unique<K, V>(items: seq<Entry<K, V>>) {
    forall i, j :: 0 <= i < j < |items| ==> items[i].key != items[j].key
  }

  ghost predicate Has<K, V>(items: seq<Entry<K, V>>, key: K) {
    exists i :: 0 <= i < |items| && items[i].key == key
  }

  ghost function KeySet<K, V>(items: seq<Entry<K, V>>): set<K> {
    set i | 0 <= i < |items| :: items[i].key
  }

  // Position of the first entry for key; |items| when there is none.
  ghost function IndexOf<K, V>(items: seq<Entry<K, V>>, key: K): (i: nat)
    ensures i <= |items|
    ensures i < |items| <==> Has(items, key)
    ensures i < |items| ==> items[i].key == key
    ensures forall j :: 0 <= j < i ==> items[j].key != key
  {
    if |items| == 0 || items[0].key == key then 0
    else
      var n := IndexOf(items[1..], key);
      assert Has(items[1..], key) ==> Has(items, key) by {
        if n < |items| - 1 { assert items[n + 1].key == key; }
      }
      n + 1
  }

  ghost function Without<K, V>(items: seq<Entry<K, V>>, key: K): seq<Entry<K, V>> {
    if |items| == 0 then []
    else if items[0].key == key then Without(items[1..], key)
    else [items[0]] + Without(items[1..], key)
  }

  // The value LRUCache::get returns.
  ghost function Found<K, V>(c: Cache<K, V>, key: K): Option<V> {
    var i := IndexOf(c.items, key);
    if i < |c.items| then Some(c.items[i].value) else None
  }

  // The cache LRUCache::get leaves: a miss inserts nothing.
  ghost function Get<K, V>(c: Cache<K, V>, key: K): Cache<K, V> {
    match Found(c, key)
    case None => c.(misses := c.misses + 1)
    case Some(v) => c.(items := [Entry(key, v)] + Without(c.items, key), hits := c.hits + 1)
  }

  ghost function EvictLast<K, V>(items: seq<Entry<K, V>>): seq<Entry<K, V>> {
    if |items| == 0 then items else items[..|items| - 1]
  }

  // Eviction is guarded by an equality test, so at capacity 0 it finds nothing to evict.
  ghost function Put<K, V>(c: Cache<K, V>, e: Entry<K, V>): Cache<K, V> {
    if Has(c.items, e.key) then c.(items := [e] + Without(c.items, e.key))
    else if |c.items| == c.capacity then c.(items := [e] + EvictLast(c.items))
    else c.(items := [e] + c.items)
  }

  ghost function EvictTo<K, V>(c: Cache<K, V>, n: nat): Cache<K, V> {
    c.(items := c.items[..Min(n, |c.items|)])
  }

  ghost function Resized<K, V>(c: Cache<K, V>, n: nat): Cache<K, V> {
    EvictTo(c, n).(capacity := n)
  }

  ghost function Apply<K, V>(c: Cache<K, V>, op: Op<K, V>): Cache<K, V> {
    match op
    case Lookup(key) => Get(c, key)
    case Store(e) => Put(c, e)
    case Resize(n) => Resized(c, n)
  }

  ghost function Run<K, V>(c: Cache<K, V>, ops: seq<Op<K, V>>): Cache<K, V> {
    if |ops| == 0 then c else Apply(Run(c, ops[..|ops| - 1]), ops[|ops| - 1])
  }

  ghost function StoredKeys<K, V>(ops: seq<Op<K, V>>): set<K> {
    set i | 0 <= i < |ops| && ops[i].Store? :: ops[i].entry.key
  }

  // ----- facts about Without

  lemma KeyPlace<K, V>(items: seq<Entry<K, V>>, i: nat)
    requires Unique(items) && i < |items|
    ensures IndexOf(items, items[i].key) == i && Has(items, items[i].key)
  {
  }

  lemma {:induction false} WithoutIndex<K, V>(items: seq<Entry<K, V>>, key: K)
    requires Unique(items)
    ensures var i := IndexOf(items, key);
            Without(items, key) == if i < |items| then items[..i] + items[i + 1..] else items
  {
    if |items| > 0 {
      WithoutIndex(items[1..], key);
      var i := IndexOf(items, key);
      if items[0].key == key {
        assert !Has(items[1..], key);
        assert items[..0] + items[1..] == items[1..];
      } else if i < |items| {
        assert [items[0]] + (items[1..][..i - 1] + items[1..][i..]) == items[..i] + items[i + 1..];
      } else {
        assert [items[0]] + items[1..] == items;
      }
    }
  }

  lemma WithoutAbsent<K, V>(items: seq<Entry<K, V>>, key: K)
    requires Unique(items)
    ensures !Has(items, key) ==> Without(items, key) == items
  {
    WithoutIndex(items, key);
  }

  lemma DropKeys<K, V>(items: seq<Entry<K, V>>, i: nat)
    requires Unique(items) && i < |items|
    ensures var w := items[..i] + items[i + 1..];
            Unique(w) && KeySet(w) == KeySet(items) - {items[i].key}
  {
    var w := items[..i] + items[i + 1..];
    forall k | k in KeySet(items) - {items[i].key} ensures k in KeySet(w) {
      var j :| 0 <= j < |items| && items[j].key == k;
      assert w[if j < i then j else j - 1].key == k;
    }
    forall k | k in KeySet(w) ensures k in KeySet(items) - {items[i].key} {
      var j :| 0 <= j < |w| && w[j].key == k;
      assert w[j] == items[if j < i then j else j + 1];
    }
  }

  lemma WithoutKeys<K, V>(items: seq<Entry<K, V>>, key: K)
    requires Unique(items)
    ensures Unique(Without(items, key))
    ensures !Has(Without(items, key), key)
    ensures KeySet(Without(items, key)) == KeySet(items) - {key}
    ensures |Without(items, key)| == if Has(items, key) then |items| - 1 else |items|
  {
    WithoutIndex(items, key);
    var i := IndexOf(items, key);
    if i < |items| { DropKeys(items, i); }
  }

  // ----- what every operation keeps

  ghost predicate Bounded<K, V>(c: Cache<K, V>) {
    c.capacity >= 1 ==> |c.items| <= c.capacity
  }

  lemma ApplyKeeps<K, V>(c: Cache<K, V>, op: Op<K, V>)
    requires Unique(c.items) && Bounded(c)
    ensures Unique(Apply(c, op).items) && Bounded(Apply(c, op))
  {
    match op
    case Lookup(key) => WithoutKeys(c.items, key);
    case Store(e) => WithoutKeys(c.items, e.key);
    case Resize(n) =>
  }

  // Over every run: keys stay distinct and the bound holds whenever the capacity is at least 1,
  // also after the capacity has been 0 in between.
  lemma {:induction false} RunKeeps<K, V>(capacity: nat, ops: seq<Op<K, V>>)
    ensures var c := Run(Empty<K, V>(capacity), ops);
            Unique(c.items) && Bounded(c)
  {
    if |ops| > 0 {
      RunKeeps(capacity, ops[..|ops| - 1]);
      ApplyKeeps(Run(Empty<K, V>(capacity), ops[..|ops| - 1]), ops[|ops| - 1]);
    }
  }

  // The bound survives a put of any key exactly when the capacity is not 0.
  lemma PutStaysWithin<K, V>(c: Cache<K, V>, e: Entry<K, V>)
    requires Unique(c.items) && |c.items| <= c.capacity
    ensures |Put(c, e).items| <= c.capacity <==> c.capacity >= 1
  {
    WithoutKeys(c.items, e.key);
  }

  // At capacity 0 nothing is ever evicted: the size is the number of distinct keys put.
  lemma {:induction false} ZeroCapacityIsUnbounded<K, V>(c: Cache<K, V>, ops: seq<Op<K, V>>)
    requires c.capacity == 0 && |c.items| == 0
    requires forall i :: 0 <= i < |ops| ==> !ops[i].Resize?
    ensures var d := Run(c, ops);
            d.capacity == 0 && Unique(d.items) && KeySet(d.items) == StoredKeys(ops) && |d.items| == |StoredKeys(ops)|
  {
    if |ops| > 0 {
      var n := |ops| - 1;
      var b := Run(c, ops[..n]);
      ZeroCapacityIsUnbounded(c, ops[..n]);
      assert !ops[n].Resize?;
      ApplyKeeps(b, ops[n]);
      ZeroCapacityStep(b, ops[n]);
      StoredKeysSnoc(ops);
      CountKeys(Apply(b, ops[n]).items);
    }
  }

  lemma ZeroCapacityStep<K, V>(c: Cache<K, V>, op: Op<K, V>)
    requires c.capacity == 0 && Unique(c.items) && !op.Resize?
    ensures KeySet(Apply(c, op).items) == KeySet(c.items) + if op.Store? then {op.entry.key} else {}
    ensures Apply(c, op).capacity == 0
  {
    var key := if op.Store? then op.entry.key else op.key;
    WithoutKeys(c.items, key);
    if Has(c.items, key) {
      assert key in KeySet(c.items);
      ConsKeys(if op.Store? then op.entry else Entry(key, Found(c, key).value), Without(c.items, key));
    } else if op.Store? {
      ConsKeys(op.entry, c.items);
    }
  }

  lemma StoredKeysSnoc<K, V>(ops: seq<Op<K, V>>)
    requires |ops| > 0
    ensures var op := ops[|ops| - 1];
            StoredKeys(ops) == StoredKeys(ops[..|ops| - 1]) + if op.Store? then {op.entry.key} else {}
  {
    var n := |ops| - 1;
    forall k | k in StoredKeys(ops[..n]) ensures k in StoredKeys(ops) {
      var i :| 0 <= i < n && ops[..n][i].Store? && ops[..n][i].entry.key == k;
      assert ops[i].Store? && ops[i].entry.key == k;
    }
  }

  lemma ConsKeys<K, V>(e: Entry<K, V>, items: seq<Entry<K, V>>)
    ensures KeySet([e] + items) == {e.key} + KeySet(items)
  {
    forall k | k in {e.key} + KeySet(items) ensures k in KeySet([e] + items) {
      if k == e.key {
        assert ([e] + items)[0].key == k;
      } else {
        var i :| 0 <= i < |items| && items[i].key == k;
        assert ([e] + items)[i + 1].key == k;
      }
    }
  }

  lemma {:induction false} CountKeys<K, V>(items: seq<Entry<K, V>>)
    requires Unique(items)
    ensures |KeySet(items)| == |items|
  {
    if |items| > 0 {
      CountKeys(items[1..]);
      ConsKeys(items[0], items[1..]);
      assert [items[0]] + items[1..] == items;
      assert items[0].key !in KeySet(items[1..]);
    }
  }
}
