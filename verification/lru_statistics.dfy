// What a run of operations leaves in a cache, read off the operations: the statistics, the order of
// the entries, and their values.
module LruStatistics {
  import opened LruModel
  import opened Wrappers

  // ----- hits and misses

  ghost function Lookups<K, V>(ops: seq<Op<K, V>>): nat {
    if |ops| == 0 then 0 else Lookups(ops[..|ops| - 1]) + if ops[|ops| - 1].Lookup? then 1 else 0
  }

  // The lookups whose key the cache held when they were made.
  ghost function HeldLookups<K, V>(capacity: nat, ops: seq<Op<K, V>>): nat {
    if |ops| == 0 then 0
    else
      var n := |ops| - 1;
      HeldLookups(capacity, ops[..n])
      + if ops[n].Lookup? && Has(Run(Empty<K, V>(capacity), ops[..n]).items, ops[n].key) then 1 else 0
  }

  // Over every run only lookups count: as hits exactly when their key was held, otherwise as misses.
  lemma {:induction false} StatisticsAreHistory<K, V>(capacity: nat, ops: seq<Op<K, V>>)
    ensures var c := Run(Empty<K, V>(capacity), ops);
            c.hits == HeldLookups(capacity, ops) && c.hits + c.misses == Lookups(ops)
  {
    if |ops| > 0 {
      hide Has, Without, EvictLast, IndexOf;
      StatisticsAreHistory(capacity, ops[..|ops| - 1]);
    }
  }

  // ----- order and values

  predicate Uses<K(==), V>(op: Op<K, V>, key: K) {
    match op
    case Lookup(k) => k == key
    case Store(e) => e.key == key
    case Resize(_) => false
  }

  // The position of the last operation on key, -1 if there is none.
  ghost function LastUse<K, V>(ops: seq<Op<K, V>>, key: K): (i: int)
    ensures -1 <= i < |ops|
  {
    if |ops| == 0 then -1
    else if Uses(ops[|ops| - 1], key) then |ops| - 1
    else LastUse(ops[..|ops| - 1], key)
  }

  // The last value put under key.
  ghost function LastValue<K, V>(ops: seq<Op<K, V>>, key: K): Option<V> {
    if |ops| == 0 then None
    else if ops[|ops| - 1].Store? && ops[|ops| - 1].entry.key == key then Some(ops[|ops| - 1].entry.value)
    else LastValue(ops[..|ops| - 1], key)
  }

  ghost predicate InOrder<K, V>(items: seq<Entry<K, V>>, ops: seq<Op<K, V>>) {
    forall i, j :: 0 <= i < j < |items| ==> LastUse(ops, items[i].key) > LastUse(ops, items[j].key)
  }

  ghost predicate UpToDate<K, V>(items: seq<Entry<K, V>>, ops: seq<Op<K, V>>) {
    forall i :: 0 <= i < |items| ==> LastValue(ops, items[i].key) == Some(items[i].value)
  }

  // items without an entry, or without the last ones.
  lemma CutKeeps<K, V>(items: seq<Entry<K, V>>, ops: seq<Op<K, V>>, i: nat, n: nat)
    requires i <= n <= |items| && InOrder(items, ops) && UpToDate(items, ops)
    ensures InOrder(items[..i] + items[n..], ops) && UpToDate(items[..i] + items[n..], ops)
  {
    hide LastUse, LastValue;
  }

  // The last operation is not on any of the keys.
  lemma UnusedKeeps<K, V>(items: seq<Entry<K, V>>, ops: seq<Op<K, V>>, op: Op<K, V>)
    requires InOrder(items, ops) && UpToDate(items, ops) && forall i :: 0 <= i < |items| ==> !Uses(op, items[i].key)
    ensures InOrder(items, ops + [op]) && UpToDate(items, ops + [op])
  {
    assert (ops + [op])[..|ops|] == ops;
  }

  // The last operation is on e's key, which goes to the front.
  lemma UsedFirst<K, V>(items: seq<Entry<K, V>>, ops: seq<Op<K, V>>, op: Op<K, V>, e: Entry<K, V>)
    requires InOrder(items, ops) && UpToDate(items, ops) && forall i :: 0 <= i < |items| ==> !Uses(op, items[i].key)
    requires Uses(op, e.key) && LastValue(ops + [op], e.key) == Some(e.value)
    ensures InOrder([e] + items, ops + [op]) && UpToDate([e] + items, ops + [op])
  {
    UnusedKeeps(items, ops, op);
    forall i | 0 <= i < |items| ensures LastUse(ops + [op], items[i].key) < |ops| {
      assert (ops + [op])[..|ops|] == ops;
    }
    hide Uses, LastValue;
  }

  lemma StepInOrder<K, V>(c: Cache<K, V>, ops: seq<Op<K, V>>, op: Op<K, V>)
    requires Unique(c.items) && InOrder(c.items, ops) && UpToDate(c.items, ops)
    ensures var d := Apply(c, op);
            InOrder(d.items, ops + [op]) && UpToDate(d.items, ops + [op])
  {
    hide InOrder, UpToDate, Without, IndexOf, Has;
    var l := c.items;
    match op
    case Lookup(key) =>
      var i := IndexOf(l, key);
      RestUnused(l, key);
      if i < |l| {
        WithoutIndex(l, key);
        CutKeeps(l, ops, i, i + 1);
        HeldValue(l, ops, i);
        assert (ops + [op])[..|ops|] == ops;
        UsedFirst(Without(l, key), ops, op, Entry(key, l[i].value));
      } else {
        UnusedKeeps(l, ops, op);
      }
    case Store(e) =>
      RestUnused(l, e.key);
      if Has(l, e.key) {
        var i := IndexOf(l, e.key);
        WithoutIndex(l, e.key);
        CutKeeps(l, ops, i, i + 1);
        UsedFirst(Without(l, e.key), ops, op, e);
      } else if |l| == c.capacity && |l| > 0 {
        CutKeeps(l, ops, |l| - 1, |l|);
        assert l[..|l| - 1] + l[|l|..] == EvictLast(l);
        UsedFirst(EvictLast(l), ops, op, e);
      } else {
        UsedFirst(l, ops, op, e);
      }
    case Resize(n) =>
      var m := Min(n, |l|);
      CutKeeps(l, ops, m, |l|);
      assert l[..m] + l[|l|..] == l[..m];
      UnusedKeeps(l[..m], ops, op);
  }

  lemma HeldValue<K, V>(items: seq<Entry<K, V>>, ops: seq<Op<K, V>>, i: nat)
    requires UpToDate(items, ops) && i < |items|
    ensures LastValue(ops, items[i].key) == Some(items[i].value)
  {
  }

  lemma RestUnused<K, V>(items: seq<Entry<K, V>>, key: K)
    requires Unique(items)
    ensures var rest := Without(items, key); forall i :: 0 <= i < |rest| ==> rest[i].key != key
    ensures !Has(items, key) ==> forall i :: 0 <= i < |items| ==> items[i].key != key
  {
    hide Without;
    WithoutKeys(items, key);
  }

  // Over every run, with any capacities in between: the entries stand in the order of the last
  // operation on their keys, the latest first, each with the last value put.
  lemma {:induction false} EntriesAreHistory<K, V>(capacity: nat, ops: seq<Op<K, V>>)
    ensures var c := Run(Empty<K, V>(capacity), ops);
            InOrder(c.items, ops) && UpToDate(c.items, ops)
  {
    if |ops| > 0 {
      hide Apply, InOrder, UpToDate;
      var n := |ops| - 1;
      EntriesAreHistory(capacity, ops[..n]);
      RunKeeps(capacity, ops[..n]);
      StepInOrder(Run(Empty<K, V>(capacity), ops[..n]), ops[..n], ops[n]);
      assert ops[..n] + [ops[n]] == ops;
    }
  }

  // The entry a put evicts is the one used longest ago.
  lemma EvictsLeastRecentlyUsed<K, V>(capacity: nat, ops: seq<Op<K, V>>, e: Entry<K, V>)
    requires var c := Run(Empty<K, V>(capacity), ops); |c.items| == c.capacity > 0 && !Has(c.items, e.key)
    ensures var c := Run(Empty<K, V>(capacity), ops);
            var gone := c.items[|c.items| - 1];
            && Put(c, e).items == [e] + c.items[..|c.items| - 1]
            && forall i :: 0 <= i < |c.items| - 1 ==> LastUse(ops, c.items[i].key) > LastUse(ops, gone.key)
  {
    hide Run;
    EntriesAreHistory(capacity, ops);
  }
}
