// LRU inclusion: a governed cache never hits more than a larger one fed the same requests, exactly as
// long as each resize leaves it no more room than the larger one has. This bounds the price of
// governing a cache.
module LruInclusion {
  import opened LruModel
  import opened Wrappers

  // a can be obtained from b by deleting entries.
  ghost predicate Sub<K, V>(a: seq<Entry<K, V>>, b: seq<Entry<K, V>>) {
    |a| == 0 || (|b| > 0 && ((a[0] == b[0] && Sub(a[1..], b[1..])) || Sub(a, b[1..])))
  }

  lemma {:induction false} SubLength<K, V>(a: seq<Entry<K, V>>, b: seq<Entry<K, V>>)
    requires Sub(a, b)
    ensures |a| <= |b|
  {
    if |a| > 0 {
      if a[0] == b[0] && Sub(a[1..], b[1..]) { SubLength(a[1..], b[1..]); } else { SubLength(a, b[1..]); }
    }
  }

  lemma {:induction false} SubMember<K, V>(a: seq<Entry<K, V>>, b: seq<Entry<K, V>>, e: Entry<K, V>)
    requires Sub(a, b) && e in a
    ensures e in b
  {
    if a[0] == b[0] && Sub(a[1..], b[1..]) {
      if e != a[0] { SubMember(a[1..], b[1..], e); }
    } else {
      SubMember(a, b[1..], e);
    }
  }

  lemma SubCons<K, V>(e: Entry<K, V>, a: seq<Entry<K, V>>, b: seq<Entry<K, V>>)
    requires Sub(a, b)
    ensures Sub([e] + a, [e] + b)
  {
    assert ([e] + a)[1..] == a && ([e] + b)[1..] == b;
  }

  lemma SubSkip<K, V>(e: Entry<K, V>, a: seq<Entry<K, V>>, b: seq<Entry<K, V>>)
    requires Sub(a, b)
    ensures Sub(a, [e] + b)
  {
    assert ([e] + b)[1..] == b;
  }

  lemma {:induction false} SubWithout<K, V>(a: seq<Entry<K, V>>, b: seq<Entry<K, V>>, key: K)
    requires Sub(a, b)
    ensures Sub(Without(a, key), Without(b, key))
  {
    if |a| > 0 {
      if a[0] == b[0] && Sub(a[1..], b[1..]) {
        SubWithout(a[1..], b[1..], key);
        if a[0].key != key { SubCons(a[0], Without(a[1..], key), Without(b[1..], key)); }
      } else {
        SubWithout(a, b[1..], key);
        if b[0].key != key { SubSkip(b[0], Without(a, key), Without(b[1..], key)); }
      }
    }
  }

  lemma {:induction false} SubTake<K, V>(a: seq<Entry<K, V>>, b: seq<Entry<K, V>>, n: nat)
    requires Sub(a, b) && n <= |a|
    ensures Sub(a[..n], b)
  {
    if n > 0 {
      if a[0] == b[0] && Sub(a[1..], b[1..]) {
        SubTake(a[1..], b[1..], n - 1);
        assert a[..n][1..] == a[1..][..n - 1];
      } else {
        SubTake(a, b[1..], n);
      }
    }
  }

  // Both lose their last entry.
  lemma {:induction false} SubEvictBoth<K, V>(a: seq<Entry<K, V>>, b: seq<Entry<K, V>>)
    requires Sub(a, b) && |a| > 0
    ensures |b| > 0 && Sub(a[..|a| - 1], b[..|b| - 1])
  {
    if a[0] == b[0] && Sub(a[1..], b[1..]) {
      if |a| > 1 {
        SubEvictBoth(a[1..], b[1..]);
        assert a[..|a| - 1] == [a[0]] + a[1..][..|a| - 2];
        assert b[..|b| - 1] == [b[0]] + b[1..][..|b| - 2];
        SubCons(a[0], a[1..][..|a| - 2], b[1..][..|b| - 2]);
      }
    } else {
      SubEvictBoth(a, b[1..]);
      assert b[..|b| - 1] == [b[0]] + b[1..][..|b| - 2];
      SubSkip(b[0], a[..|a| - 1], b[1..][..|b| - 2]);
    }
  }

  // ----- two caches, one request stream

  datatype Event<K, V> =
    | Request(op: Op<K, V>)        // a get or a put, served by both
    | ResizeSmall(capacity: nat)   // the governor shrinks or grows the small cache
    | GrowLarge(capacity: nat)     // the large cache may grow

  datatype Pair<K, V> = Pair(small: Cache<K, V>, large: Cache<K, V>)

  // How many more entries the cache takes before it evicts.
  function Room<K, V>(c: Cache<K, V>): int {
    c.capacity - |c.items|
  }

  // The small cache keeps some capacity, and gets no more room than the large one has. A shrink to at
  // least 1 always meets this; so does any growth of a cache that equals the large one, up to its
  // capacity.
  predicate Fits<K, V>(p: Pair<K, V>, n: nat) {
    1 <= n && n - |p.small.items| <= Room(p.large)
  }

  ghost predicate Legal<K, V>(p: Pair<K, V>, e: Event<K, V>) {
    match e
    case Request(op) => !op.Resize?
    case ResizeSmall(n) => Fits(p, n)
    case GrowLarge(n) => p.large.capacity <= n
  }

  ghost function Step<K, V>(p: Pair<K, V>, e: Event<K, V>): Pair<K, V> {
    match e
    case Request(op) => Pair(Apply(p.small, op), Apply(p.large, op))
    case ResizeSmall(n) => p.(small := Resized(p.small, n))
    case GrowLarge(n) => p.(large := Resized(p.large, n))
  }

  ghost function Run<K, V>(p: Pair<K, V>, es: seq<Event<K, V>>): Pair<K, V> {
    if |es| == 0 then p else Step(Run(p, es[..|es| - 1]), es[|es| - 1])
  }

  ghost predicate LegalRun<K, V>(p: Pair<K, V>, es: seq<Event<K, V>>) {
    |es| == 0 || (LegalRun(p, es[..|es| - 1]) && Legal(Run(p, es[..|es| - 1]), es[|es| - 1]))
  }

  // The comparison of rooms is the heart: whenever the large cache evicts, the small one does.
  ghost predicate Included<K, V>(p: Pair<K, V>) {
    && 1 <= p.small.capacity
    && Unique(p.small.items) && Unique(p.large.items)
    && 0 <= Room(p.small) <= Room(p.large)
    && Sub(p.small.items, p.large.items)
    && p.small.hits <= p.large.hits
    && p.small.hits + p.small.misses == p.large.hits + p.large.misses
  }

  // A hit in the small cache is a hit in the large cache, with the same value.
  lemma SmallHitIsLargeHit<K, V>(p: Pair<K, V>, key: K)
    requires Included(p)
    ensures Found(p.small, key).Some? ==> Found(p.large, key) == Found(p.small, key)
  {
    var i := IndexOf(p.small.items, key);
    if i < |p.small.items| {
      SubMember(p.small.items, p.large.items, p.small.items[i]);
      var j :| 0 <= j < |p.large.items| && p.large.items[j] == p.small.items[i];
      assert Has(p.large.items, key);
    }
  }

  lemma LookupKeeps<K, V>(p: Pair<K, V>, key: K)
    requires Included(p)
    ensures Included(Step(p, Request(Lookup(key))))
  {
    var s, l := p.small.items, p.large.items;
    SmallHitIsLargeHit(p, key);
    WithoutKeys(s, key);
    WithoutKeys(l, key);
    if Found(p.large, key).Some? {
      var e := Entry(key, Found(p.large, key).value);
      if Found(p.small, key).Some? {
        SubWithout(s, l, key);
        SubCons(e, Without(s, key), Without(l, key));
      } else {
        WithoutIndex(s, key);
        SubWithout(s, l, key);
        SubSkip(e, s, Without(l, key));
      }
    }
  }

  lemma StoreKeeps<K, V>(p: Pair<K, V>, e: Entry<K, V>)
    requires Included(p)
    ensures Included(Step(p, Request(Store(e))))
  {
    hide Sub, Without, Unique, IndexOf, KeySet;
    var s, l := p.small.items, p.large.items;
    SmallHitIsLargeHit(p, e.key);
    ApplyKeeps(p.small, Store(e));
    ApplyKeeps(p.large, Store(e));
    WithoutKeys(s, e.key);
    WithoutKeys(l, e.key);
    WithoutAbsent(s, e.key);
    SubWithout(s, l, e.key);
    if Has(s, e.key) {
      SubCons(e, Without(s, e.key), Without(l, e.key));
    } else if Has(l, e.key) {
      if |s| < p.small.capacity {
        SubCons(e, s, Without(l, e.key));
      } else {
        SubTake(s, Without(l, e.key), |s| - 1);
        SubCons(e, EvictLast(s), Without(l, e.key));
      }
    } else if |s| < p.small.capacity {
      SubCons(e, s, l);
    } else {
      SubLength(s, l);
      SubTake(s, l, |s| - 1);
      SubEvictBoth(s, l);
      SubCons(e, EvictLast(s), if |l| == p.large.capacity then EvictLast(l) else l);
    }
  }

  lemma ShrinkFits<K, V>(p: Pair<K, V>, n: nat)
    requires Included(p) && 1 <= n <= p.small.capacity
    ensures Fits(p, n)
  {
  }

  lemma StepKeeps<K, V>(p: Pair<K, V>, e: Event<K, V>)
    requires Included(p) && Legal(p, e)
    ensures Included(Step(p, e))
  {
    match e
    case Request(Lookup(key)) => LookupKeeps(p, key);
    case Request(Store(entry)) => StoreKeeps(p, entry);
    case ResizeSmall(n) => SubTake(p.small.items, p.large.items, Min(n, |p.small.items|));
    case GrowLarge(n) => assert p.large.items[..|p.large.items|] == p.large.items;
  }

  // Main result: over every run from two empty caches with 1 <= c1 <= c2, the small cache resized at
  // will as long as it fits, it holds a subsequence of the large one and never has more hits over the
  // same number of lookups.
  lemma {:induction false} Inclusion<K, V>(c1: nat, c2: nat, es: seq<Event<K, V>>)
    requires 1 <= c1 <= c2
    requires LegalRun(Pair(Empty(c1), Empty(c2)), es)
    ensures Included(Run(Pair(Empty(c1), Empty(c2)), es))
  {
    if |es| > 0 {
      var p := Run(Pair(Empty(c1), Empty(c2)), es[..|es| - 1]);
      Inclusion(c1, c2, es[..|es| - 1]);
      StepKeeps(p, es[|es| - 1]);
    }
  }

  // ----- a small cache that is never grown

  ghost predicate NeverGrown<K, V>(p: Pair<K, V>, es: seq<Event<K, V>>) {
    |es| == 0
    || (NeverGrown(p, es[..|es| - 1])
        && var e := es[|es| - 1]; e.ResizeSmall? ==> e.capacity <= Run(p, es[..|es| - 1]).small.capacity)
  }

  ghost predicate EqualUnlessFull<K, V>(p: Pair<K, V>) {
    Room(p.small) > 0 ==> p.small.items == p.large.items
  }

  lemma StepKeepsEqual<K, V>(p: Pair<K, V>, e: Event<K, V>)
    requires Included(p) && Legal(p, e) && EqualUnlessFull(p) && (e.ResizeSmall? ==> e.capacity <= p.small.capacity)
    ensures EqualUnlessFull(Step(p, e))
  {
    hide Sub, Without, Unique, KeySet;
    var s, l := p.small.items, p.large.items;
    match e
    case Request(Lookup(key)) => WithoutKeys(s, key);
    case Request(Store(entry)) => WithoutKeys(s, entry.key);
    case ResizeSmall(n) => assert n >= |s| ==> s[..|s|] == s;
    case GrowLarge(n) => assert l[..|l|] == l;
  }

  // Such a cache equals the large one until it is full.
  lemma {:induction false} NeverGrownEqual<K, V>(c1: nat, c2: nat, es: seq<Event<K, V>>)
    requires 1 <= c1 <= c2
    requires LegalRun(Pair(Empty(c1), Empty(c2)), es) && NeverGrown(Pair(Empty(c1), Empty(c2)), es)
    ensures EqualUnlessFull(Run(Pair(Empty(c1), Empty(c2)), es))
  {
    if |es| > 0 {
      hide Included, Legal, EqualUnlessFull, Step;
      var n := |es| - 1;
      NeverGrownEqual(c1, c2, es[..n]);
      Inclusion(c1, c2, es[..n]);
      StepKeepsEqual(Run(Pair(Empty(c1), Empty(c2)), es[..n]), es[n]);
    } else {
      assert Run(Pair(Empty(c1), Empty(c2)), es) == Pair(Empty(c1), Empty(c2));
    }
  }

  // ----- the guard is exact

  ghost predicate NoResize<K, V>(ops: seq<Op<K, V>>) {
    forall i :: 0 <= i < |ops| ==> !ops[i].Resize?
  }

  ghost function Serve<K, V>(p: Pair<K, V>, ops: seq<Op<K, V>>): Pair<K, V> {
    Pair(LruModel.Run(p.small, ops), LruModel.Run(p.large, ops))
  }

  // Whatever is requested from now on, every hit in the small cache is the same hit in the large one.
  ghost predicate AlwaysDominated<K(!new), V(!new)>(p: Pair<K, V>) {
    forall ops: seq<Op<K, V>>, key: K :: NoResize(ops) && Found(Serve(p, ops).small, key).Some? ==>
      Found(Serve(p, ops).large, key) == Found(Serve(p, ops).small, key)
  }

  lemma {:induction false} ServeKeeps<K, V>(p: Pair<K, V>, ops: seq<Op<K, V>>)
    requires Included(p) && NoResize(ops)
    ensures Included(Serve(p, ops))
  {
    if |ops| > 0 {
      hide Included;
      var n := |ops| - 1;
      ServeKeeps(p, ops[..n]);
      assert !ops[n].Resize?;
      StepKeeps(Serve(p, ops[..n]), Request(ops[n]));
    }
  }

  lemma {:induction false} ServeConcat<K, V>(p: Pair<K, V>, x: seq<Op<K, V>>, y: seq<Op<K, V>>)
    ensures Serve(p, x + y) == Serve(Serve(p, x), y)
  {
    hide Apply;
    if |y| == 0 {
      assert x + y == x;
    } else {
      var n := |y| - 1;
      ServeConcat(p, x, y[..n]);
      assert (x + y)[..|x + y| - 1] == x + y[..n];
    }
  }

  lemma ServeOne<K, V>(p: Pair<K, V>, op: Op<K, V>)
    ensures Serve(p, [op]) == Step(p, Request(op))
  {
    assert LruModel.Run(p.small, []) == p.small && LruModel.Run(p.large, []) == p.large;
  }

  // The small cache holds victim, and takes k more entries without evicting: it has room, or it is
  // past its capacity, where the equality test never evicts.
  ghost predicate Holds<K, V>(c: Cache<K, V>, victim: K, k: nat) {
    Unique(c.items) && Has(c.items, victim) && (|c.items| + k <= c.capacity || |c.items| > c.capacity)
  }

  lemma HoldsAfterLookup<K, V>(c: Cache<K, V>, victim: K, k: nat, key: K)
    requires Holds(c, victim, k)
    ensures Holds(Get(c, key), victim, k)
  {
    hide Without, IndexOf;
    WithoutKeys(c.items, key);
    if Found(c, key).Some? {
      var e := Entry(key, Found(c, key).value);
      ConsKeys(e, Without(c.items, key));
      HasInKeys(c.items, victim);
      HasInKeys([e] + Without(c.items, key), victim);
      HasInKeys(Without(c.items, key), key);
    }
  }

  lemma HoldsAfterStore<K, V>(c: Cache<K, V>, victim: K, k: nat, e: Entry<K, V>)
    requires Holds(c, victim, k) && k > 0 && !Has(c.items, e.key)
    ensures Holds(Put(c, e), victim, k - 1) && KeySet(Put(c, e).items) == {e.key} + KeySet(c.items)
  {
    ConsKeys(e, c.items);
    HasInKeys(c.items, victim);
    HasInKeys([e] + c.items, victim);
  }

  lemma HasInKeys<K, V>(items: seq<Entry<K, V>>, key: K)
    ensures Has(items, key) <==> key in KeySet(items)
  {
  }

  // The last entry of the large cache has key victim.
  ghost predicate Last<K, V>(items: seq<Entry<K, V>>, victim: K) {
    Unique(items) && |items| > 0 && items[|items| - 1].key == victim
  }

  lemma LookupLast<K, V>(c: Cache<K, V>)
    requires Unique(c.items) && |c.items| > 0
    ensures var n := |c.items| - 1;
            Get(c, c.items[n].key).items == [c.items[n]] + c.items[..n]
  {
    var n := |c.items| - 1;
    KeyPlace(c.items, n);
    WithoutIndex(c.items, c.items[n].key);
    assert c.items[..n] + c.items[n + 1..] == c.items[..n];
  }

  lemma Rotated<K, V>(items: seq<Entry<K, V>>, i: nat)
    requires Unique(items) && i + 1 < |items|
    ensures var n := |items| - 1;
            var r := [items[n]] + items[..n];
            Unique(r) && KeySet(r) == KeySet(items) && IndexOf(r, items[i].key) == i + 1 && |r| == |items|
  {
    var n := |items| - 1;
    var r := [items[n]] + items[..n];
    assert r[i + 1] == items[i];
    assert items == items[..n] + [items[n]];
    ConsKeys(items[n], items[..n]);
    assert KeySet(r) == KeySet(items) by {
      forall k | k in KeySet(items) ensures k in KeySet(r) {
        var j :| 0 <= j < |items| && items[j].key == k;
        assert r[if j == n then 0 else j + 1].key == k;
      }
    }
    KeyPlace(r, i + 1);
  }

  lemma LookupKeys<K, V>(c: Cache<K, V>, key: K)
    requires Unique(c.items)
    ensures KeySet(Get(c, key).items) == KeySet(c.items)
  {
    hide Without, IndexOf;
    WithoutKeys(c.items, key);
    HasInKeys(c.items, key);
    if Found(c, key).Some? { ConsKeys(Entry(key, Found(c, key).value), Without(c.items, key)); }
  }

  // Lookups of the large cache's last entry, one after another, bring victim to its end.
  lemma {:induction false} Bury<K, V>(p: Pair<K, V>, victim: K, k: nat) returns (ops: seq<Op<K, V>>)
    requires Holds(p.small, victim, k) && Unique(p.large.items) && Has(p.large.items, victim)
    ensures NoResize(ops) && Holds(Serve(p, ops).small, victim, k) && Last(Serve(p, ops).large.items, victim)
    ensures Room(Serve(p, ops).large) == Room(p.large)
    ensures KeySet(Serve(p, ops).small.items) == KeySet(p.small.items)
    ensures KeySet(Serve(p, ops).large.items) == KeySet(p.large.items)
    decreases |p.large.items| - IndexOf(p.large.items, victim)
  {
    hide Holds, KeySet, Has, IndexOf, Get;
    var l := p.large.items;
    var i, n := IndexOf(l, victim), |l| - 1;
    if i == n {
      ops := [];
      assert Serve(p, ops) == p;
    } else {
      var op := Lookup(l[n].key);
      var q := Step(p, Request(op));
      LookupLast(p.large);
      Rotated(l, i);
      UniqueHolds(p.small, victim, k);
      LookupKeys(p.small, l[n].key);
      HoldsAfterLookup(p.small, victim, k, l[n].key);
      GetCapacity(p.large, l[n].key);
      var rest := Bury(q, victim, k);
      ServeOne(p, op);
      ServeConcat(p, [op], rest);
      ops := [op] + rest;
    }
  }

  lemma UniqueHolds<K, V>(c: Cache<K, V>, victim: K, k: nat)
    requires Holds(c, victim, k)
    ensures Unique(c.items)
  {
  }

  lemma GetCapacity<K, V>(c: Cache<K, V>, key: K)
    ensures Get(c, key).capacity == c.capacity
  {
  }

  ghost predicate Fresh<K, V>(items: seq<Entry<K, V>>, fs: seq<Entry<K, V>>) {
    Unique(fs) && forall i :: 0 <= i < |fs| ==> fs[i].key !in KeySet(items)
  }

  function Stores<K, V>(fs: seq<Entry<K, V>>): (ops: seq<Op<K, V>>)
    ensures |ops| == |fs| && forall i :: 0 <= i < |fs| ==> ops[i] == Store(fs[i])
  {
    seq(|fs|, i requires 0 <= i < |fs| => Store(fs[i]))
  }

  // As many fresh puts as fill the large cache, and one more, drive its last entry out, while the
  // small cache still holds it.
  lemma {:induction false} Drown<K, V>(p: Pair<K, V>, victim: K, fs: seq<Entry<K, V>>)
    requires Last(p.large.items, victim) && 0 <= Room(p.large) && |fs| == Room(p.large) + 1
    requires Holds(p.small, victim, |fs|) && Fresh(p.small.items, fs) && Fresh(p.large.items, fs)
    ensures Has(Serve(p, Stores(fs)).small.items, victim) && !Has(Serve(p, Stores(fs)).large.items, victim)
    decreases |fs|
  {
    hide Holds, Has, Last, Fresh, Step, Serve, Room;
    var q := Step(p, Request(Store(fs[0])));
    ServeOne(p, Store(fs[0]));
    if |fs| == 1 {
      assert fs == [fs[0]] && Stores(fs) == [Store(fs[0])];
      LastDrop(p, victim, fs[0]);
    } else {
      assert Stores(fs) == [Store(fs[0])] + Stores(fs[1..]);
      ServeConcat(p, [Store(fs[0])], Stores(fs[1..]));
      Drop(p, victim, fs);
      Drown(q, victim, fs[1..]);
    }
  }

  // A put into a large cache with room.
  lemma Drop<K, V>(p: Pair<K, V>, victim: K, fs: seq<Entry<K, V>>)
    requires Last(p.large.items, victim) && 0 < Room(p.large) && |fs| == Room(p.large) + 1
    requires Holds(p.small, victim, |fs|) && Fresh(p.small.items, fs) && Fresh(p.large.items, fs)
    ensures var q := Step(p, Request(Store(fs[0])));
            && Last(q.large.items, victim) && Room(q.large) == Room(p.large) - 1 && Holds(q.small, victim, |fs| - 1)
            && Fresh(q.small.items, fs[1..]) && Fresh(q.large.items, fs[1..])
  {
    hide Holds, Has, KeySet;
    var e, l := fs[0], p.large.items;
    HasInKeys(p.small.items, e.key);
    HasInKeys(l, e.key);
    HoldsAfterStore(p.small, victim, |fs|, e);
    ConsKeys(e, l);
    HasNot(l, e.key);
    assert Step(p, Request(Store(e))).large.items == [e] + l;
  }

  // A put into a full one.
  lemma LastDrop<K, V>(p: Pair<K, V>, victim: K, e: Entry<K, V>)
    requires Last(p.large.items, victim) && Room(p.large) == 0 && Holds(p.small, victim, 1)
    requires Fresh(p.small.items, [e]) && Fresh(p.large.items, [e])
    ensures var q := Step(p, Request(Store(e)));
            Has(q.small.items, victim) && !Has(q.large.items, victim)
  {
    hide Holds, Has, KeySet;
    assert [e][0] == e;
    HasInKeys(p.small.items, e.key);
    HasInKeys(p.large.items, e.key);
    HoldsAfterStore(p.small, victim, 1, e);
    DrivenOut(e, p.large.items);
    HoldsHas(Put(p.small, e), victim, 0);
  }

  lemma HoldsHas<K, V>(c: Cache<K, V>, victim: K, k: nat)
    requires Holds(c, victim, k)
    ensures Has(c.items, victim)
  {
  }

  lemma HasNot<K, V>(items: seq<Entry<K, V>>, key: K)
    requires !Has(items, key)
    ensures forall i :: 0 <= i < |items| ==> items[i].key != key
  {
  }

  lemma DrivenOut<K, V>(e: Entry<K, V>, items: seq<Entry<K, V>>)
    requires Unique(items) && |items| > 0 && !Has(items, e.key)
    ensures !Has([e] + EvictLast(items), items[|items| - 1].key)
  {
  }

  lemma BreaksFrom<K, V>(p: Pair<K, V>, victim: K, fs: seq<Entry<K, V>>) returns (ops: seq<Op<K, V>>)
    requires 0 <= Room(p.large) && Holds(p.small, victim, Room(p.large) + 1)
    requires Unique(p.large.items) && Has(p.large.items, victim) && |fs| == Room(p.large) + 1
    requires Fresh(p.small.items, fs) && Fresh(p.large.items, fs)
    ensures NoResize(ops)
    ensures Found(Serve(p, ops).small, victim).Some? && Found(Serve(p, ops).large, victim).None?
  {
    hide Holds, Has, KeySet, Last;
    var first := Bury(p, victim, Room(p.large) + 1);
    Drown(Serve(p, first), victim, fs);
    ServeConcat(p, first, Stores(fs));
    ops := first + Stores(fs);
  }

  // A resize that does not fit: requests after which the small cache hits and the large one misses.
  lemma BreaksUnlessFits<K, V>(p: Pair<K, V>, n: nat, fs: seq<Entry<K, V>>)
    returns (ops: seq<Op<K, V>>, victim: K)
    requires Included(p) && !Fits(p, n)
    requires |fs| == p.large.capacity + 1 && Fresh(p.large.items, fs)
    ensures var q := Serve(Step(p, ResizeSmall(n)), ops);
            NoResize(ops) && Found(q.small, victim).Some? && Found(q.large, victim).None?
  {
    hide Holds, Has, KeySet, Fresh, Sub, Serve;
    var s := p.small.items;
    var r := Step(p, ResizeSmall(n));
    SubLength(s, p.large.items);
    if n >= 1 && |s| > 0 {
      assert r.small.items == s;
      victim := s[0].key;
      FreshPrefix(p, fs, 0, Room(p.large) + 1);
      HeldBefore(p, r, n);
      ops := BreaksFrom(r, victim, fs[0..Room(p.large) + 1]);
    } else {
      assert r.small.items == [] && r.large.capacity >= 1;
      victim := fs[0].key;
      ops := BreaksEmpty(r, fs);
    }
  }

  lemma HeldBefore<K, V>(p: Pair<K, V>, r: Pair<K, V>, n: nat)
    requires Included(p) && |p.small.items| > 0 && r == p.(small := p.small.(capacity := n))
    requires n - |p.small.items| > Room(p.large)
    ensures Holds(r.small, p.small.items[0].key, Room(p.large) + 1) && Has(p.large.items, p.small.items[0].key)
  {
    SubMember(p.small.items, p.large.items, p.small.items[0]);
  }

  lemma FreshPrefix<K, V>(p: Pair<K, V>, fs: seq<Entry<K, V>>, i: nat, j: nat)
    requires Sub(p.small.items, p.large.items) && Fresh(p.large.items, fs) && i <= j <= |fs|
    ensures Fresh(p.small.items, fs[i..j]) && Fresh(p.large.items, fs[i..j])
  {
    hide KeySet, Sub;
    SubKeys(p.small.items, p.large.items);
  }

  // From an empty small cache: the first fresh put is the victim.
  lemma BreaksEmpty<K, V>(r: Pair<K, V>, fs: seq<Entry<K, V>>) returns (ops: seq<Op<K, V>>)
    requires r.small.items == [] && Unique(r.large.items) && 0 <= Room(r.large) && r.large.capacity >= 1
    requires r.small.capacity == 0 || (Room(r.large) >= 1 && r.small.capacity > Room(r.large))
    requires |fs| == r.large.capacity + 1 && Fresh(r.large.items, fs)
    ensures var q := Serve(r, ops);
            NoResize(ops) && Found(q.small, fs[0].key).Some? && Found(q.large, fs[0].key).None?
  {
    hide Holds, Has, Serve, Fresh;
    var q := Step(r, Request(Store(fs[0])));
    FirstPut(r, fs);
    var k := Room(q.large) + 1;
    var rest := BreaksFrom(q, fs[0].key, fs[1..1 + k]);
    ServeOne(r, Store(fs[0]));
    ServeConcat(r, [Store(fs[0])], rest);
    ops := [Store(fs[0])] + rest;
  }

  lemma FirstPut<K, V>(r: Pair<K, V>, fs: seq<Entry<K, V>>)
    requires r.small.items == [] && Unique(r.large.items) && 0 <= Room(r.large) && r.large.capacity >= 1
    requires r.small.capacity == 0 || (Room(r.large) >= 1 && r.small.capacity > Room(r.large))
    requires |fs| == r.large.capacity + 1 && Fresh(r.large.items, fs)
    ensures var q := Step(r, Request(Store(fs[0])));
            var k := Room(q.large) + 1;
            && 1 <= k <= r.large.capacity && Unique(q.large.items)
            && Holds(q.small, fs[0].key, k) && Has(q.large.items, fs[0].key)
            && Fresh(q.small.items, fs[1..1 + k]) && Fresh(q.large.items, fs[1..1 + k])
  {
    hide KeySet;
    var e, l := fs[0], r.large.items;
    HasInKeys(l, e.key);
    ApplyKeeps(r.large, Store(e));
    var q := Step(r, Request(Store(e)));
    assert q.small.items == [e] && q.large.items == [e] + if Room(r.large) == 0 then EvictLast(l) else l;
    assert q.small.items[0].key == e.key && q.large.items[0].key == e.key;
    NoKeys<K, V>();
    ConsKeys(e, []);
    ConsKeys(e, l);
    ConsKeys(e, EvictLast(l));
    EvictKeys(l);
  }

  lemma NoKeys<K, V>()
    ensures KeySet<K, V>([]) == {}
  {
  }

  lemma EvictKeys<K, V>(items: seq<Entry<K, V>>)
    ensures KeySet(EvictLast(items)) <= KeySet(items)
  {
  }

  lemma SubKeys<K, V>(a: seq<Entry<K, V>>, b: seq<Entry<K, V>>)
    requires Sub(a, b)
    ensures KeySet(a) <= KeySet(b)
  {
    forall k | k in KeySet(a) ensures k in KeySet(b) {
      var i :| 0 <= i < |a| && a[i].key == k;
      SubMember(a, b, a[i]);
      var j :| 0 <= j < |b| && b[j] == a[i];
      assert b[j].key == k;
    }
  }

  // Main result: after a resize of the small cache every later hit in it is a hit in the large one,
  // whatever is requested, if and only if the resize fits. There must be fresh keys to ask for.
  lemma ResizeKeepsIff<K(!new), V(!new)>(p: Pair<K, V>, n: nat, fs: seq<Entry<K, V>>)
    requires Included(p)
    requires |fs| == p.large.capacity + 1 && Fresh(p.large.items, fs)
    ensures AlwaysDominated(Step(p, ResizeSmall(n))) <==> Fits(p, n)
  {
    hide Included, Fits, Fresh, Found;
    var r := Step(p, ResizeSmall(n));
    if Fits(p, n) {
      StepKeeps(p, ResizeSmall(n));
      forall ops: seq<Op<K, V>>, key: K | NoResize(ops) && Found(Serve(r, ops).small, key).Some?
        ensures Found(Serve(r, ops).large, key) == Found(Serve(r, ops).small, key)
      {
        ServeKeeps(r, ops);
        SmallHitIsLargeHit(Serve(r, ops), key);
      }
    } else {
      var ops, victim := BreaksUnlessFits(p, n, fs);
    }
  }

  // A cache of capacity 1 grown to 2 beside a full one of capacity 2 does not fit: after one lookup
  // and one put it holds an entry that the other lacks.
  lemma GrowingBackBreaksInclusion(a: Entry<int, int>, b: Entry<int, int>, c: Entry<int, int>)
    requires a.key != b.key && b.key != c.key && a.key != c.key
    ensures var p := Pair(Cache(1, [b], 0, 0), Cache(2, [b, a], 0, 0));
            var q := Step(Step(Step(p, ResizeSmall(2)), Request(Lookup(a.key))), Request(Store(c)));
            && Included(p) && !Fits(p, 2)
            && q.small.capacity == q.large.capacity && q.small.items == [c, b] && q.large.items == [c, a]
  {
    var p := Pair(Cache(1, [b], 0, 0), Cache(2, [b, a], 0, 0));
    assert Sub([b], [b, a]);
    assert IndexOf([b], a.key) == 1;
    assert [b, a][1..] == [a];
    assert IndexOf([b, a], a.key) == 1;
    assert [b, a][1].key == a.key;
    WithoutIndex([b, a], a.key);
    assert [b, a][..1] + [b, a][2..] == [b];
    assert !Has([b], c.key) && !Has([a, b], c.key);
  }
}
