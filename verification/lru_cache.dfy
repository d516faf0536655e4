// LRUCache: a hash map over the nodes of a hand-written doubly linked list, updated in place.
module LruCache {
  import opened LruModel
  import opened Wrappers

  class Node<K, V> {
    var key: K
    var value: V
    var prev: Node?<K, V>
    var next: Node?<K, V>

    constructor (k: K, v: V)
      ensures key == k && value == v && prev == null && next == null
    {
      key, value, prev, next := k, v, null, null;
    }
  }

  ghost predicate Distinct<T>(s: seq<T>) {
    forall i, j :: 0 <= i < j < |s| ==> s[i] != s[j]
  }

  ghost function NodeSet<K, V>(list: seq<Node<K, V>>): set<Node<K, V>> {
    set n | n in list
  }

  // list is exactly what one meets walking next from head, and prev from tail.
  ghost predicate Linked<K, V>(list: seq<Node<K, V>>, head: Node?<K, V>, tail: Node?<K, V>)
    reads list
  {
    && (|list| == 0 ==> head == null && tail == null)
    && (|list| > 0 ==> head == list[0] && head.prev == null && tail == list[|list| - 1] && tail.next == null)
    && (forall i {:trigger list[i].prev} :: 1 <= i < |list| ==> list[i].prev == list[i - 1])
    && (forall i {:trigger list[i].next} :: 0 <= i < |list| - 1 ==> list[i].next == list[i + 1])
  }

  // The nodes carry the entries.
  ghost predicate Carries<K, V>(list: seq<Node<K, V>>, items: seq<Entry<K, V>>)
    reads list
  {
    && |list| == |items|
    && forall i :: 0 <= i < |list| ==> items[i].key == list[i].key && items[i].value == list[i].value
  }

  // The map's values are exactly the nodes of the list, each under its own key.
  ghost predicate Indexed<K, V>(index: map<K, Node<K, V>>, list: seq<Node<K, V>>, items: seq<Entry<K, V>>) {
    && |list| == |items|
    && index.Keys == KeySet(items)
    && forall i :: 0 <= i < |items| ==> items[i].key in index && index[items[i].key] == list[i]
  }

  ghost function ToFront<T>(s: seq<T>, i: nat): seq<T>
    requires i < |s|
  {
    [s[i]] + (s[..i] + s[i + 1..])
  }

  class LRUCache<K(==), V> {
    var capacity: nat
    var size: nat
    var head: Node?<K, V>
    var tail: Node?<K, V>
    var index: map<K, Node<K, V>>
    var hits: nat
    var misses: nat

    ghost var list: seq<Node<K, V>>    // the nodes from head to tail
    ghost var items: seq<Entry<K, V>>  // what they carry
    ghost var made: set<Node<K, V>>    // every node this cache ever allocated
    ghost var freed: set<Node<K, V>>   // every node it deleted

    ghost predicate Valid()
      reads this, list
    {
      && Distinct(list) && Linked(list, head, tail)
      && Unique(items) && Carries(list, items)
      && Indexed(index, list, items)
      && size == |list|
      && Conserved()
    }

    // Nodes allocated = nodes deleted + nodes reachable from head, with no overlap.
    ghost predicate Conserved()
      reads this
    {
      made == freed + NodeSet(list) && freed !! NodeSet(list)
    }

    ghost function Model(): Cache<K, V>
      reads this
    {
      Cache(capacity, items, hits, misses)
    }

    constructor (maxCapacity: nat)
      ensures Valid() && Model() == Empty(maxCapacity)
      ensures made == {} && list == []
    {
      capacity, size, head, tail, index, hits, misses := maxCapacity, 0, null, null, map[], 0, 0;
      list, items, made, freed := [], [], {}, {};
    }

    // delete: a node may be given back once, and only if this cache allocated it.
    ghost method Delete(node: Node<K, V>)
      requires node in made && node !in freed
      modifies this`freed
      ensures freed == old(freed) + {node}
    {
      freed := freed + {node};
    }

    // add_to_front
    method AddToFront(node: Node<K, V>)
      requires Distinct(list) && Linked(list, head, tail) && Carries(list, items) && node !in list
      modifies this`head, this`tail, this`list, this`items, list, node
      ensures list == [node] + old(list) && items == [Entry(old(node.key), old(node.value))] + old(items)
      ensures unchanged(`capacity, `size, `index, `hits, `misses, `made, `freed)
      ensures Linked(list, head, tail) && Carries(list, items)
    {
      node.next := head;
      node.prev := null;
      if head != null { head.prev := node; }
      head := node;
      if tail == null { tail := head; }
      list, items := [node] + list, [Entry(node.key, node.value)] + items;
    }

    // the first half of move_to_front: take the node at position i out of the chain
    method Detach(node: Node<K, V>, ghost i: nat)
      requires Distinct(list) && Linked(list, head, tail) && Carries(list, items)
      requires 0 < i < |list| && list[i] == node
      modifies this`tail, this`list, this`items, list
      ensures list == old(list)[..i] + old(list)[i + 1..] && items == old(items)[..i] + old(items)[i + 1..]
      ensures unchanged(`capacity, `size, `head, `index, `hits, `misses, `made, `freed)
      ensures node.key == old(node.key) && node.value == old(node.value)
      ensures Linked(list, head, tail) && Carries(list, items)
    {
      if node.prev != null { node.prev.next := node.next; }
      if node.next != null { node.next.prev := node.prev; }
      if node == tail { tail := node.prev; }
      assert list[i - 1].next == (if i + 1 < |list| then list[i + 1] else null);
      list, items := list[..i] + list[i + 1..], items[..i] + items[i + 1..];
    }

    // move_to_front
    method MoveToFront(node: Node<K, V>, ghost i: nat)
      requires Distinct(list) && Linked(list, head, tail) && Carries(list, items)
      requires i < |list| && list[i] == node
      modifies this`head, this`tail, this`list, this`items, list
      ensures list == ToFront(old(list), i) && items == ToFront(old(items), i)
      ensures |list| > 0 && list[0] == node
      ensures unchanged(`capacity, `size, `index, `hits, `misses, `made, `freed)
      ensures Linked(list, head, tail) && Carries(list, items)
    {
      hide Linked, Carries, Distinct;
      DistinctWithout(list, i);
      CarriesAt(list, items, i);
      SizeOfItems(list, items);
      HeadIsFirst(list, head, tail);
      if node == head {
        ToFrontZero(list);
        ToFrontZero(items);
        return;
      }
      Detach(node, i);
      AddToFront(node);
    }

    // the pointers of evict_lru
    method UnlinkTail()
      requires Distinct(list) && Linked(list, head, tail) && Carries(list, items) && tail != null
      modifies this`head, this`tail, this`list, this`items, list
      ensures |old(list)| > 0 && list == old(list)[..|old(list)| - 1] && items == old(items)[..|old(list)| - 1]
      ensures Linked(list, head, tail) && Carries(list, items)
      ensures unchanged(`capacity, `size, `index, `hits, `misses, `made, `freed)
    {
      tail := tail.prev;
      if tail != null { tail.next := null; } else { head := null; }
      list, items := list[..|list| - 1], items[..|list| - 1];
    }

    // evict_lru past its null test
    method DropTail()
      requires Distinct(list) && Linked(list, head, tail) && Carries(list, items)
      requires tail != null && tail in made && tail !in freed && size > 0
      modifies this, list
      ensures |old(list)| > 0 && list == old(list)[..|old(list)| - 1] && items == old(items)[..|old(list)| - 1]
      ensures Linked(list, head, tail) && Carries(list, items)
      ensures index == old(index) - {old(items)[|old(list)| - 1].key}
      ensures size == old(size) - 1 && freed == old(freed) + {old(tail)}
      ensures unchanged(`capacity, `hits, `misses, `made)
    {
      hide Linked, Carries, Distinct;
      var toRemove := tail;
      TailCarries(list, items, head, tail);
      index := index - {toRemove.key};
      UnlinkTail();
      Delete(toRemove);
      size := size - 1;
    }

    // evict_lru
    method EvictLru()
      requires Valid()
      modifies this, list
      ensures Valid()
      ensures list == if |old(list)| == 0 then old(list) else old(list)[..|old(list)| - 1]
      ensures items == EvictLast(old(items))
      ensures unchanged(`capacity, `hits, `misses, `made)
      ensures freed == old(freed) + (NodeSet(old(list)) - NodeSet(list))
    {
      hide Unique, Indexed, Distinct;
      if tail == null { return; }
      DropLast(index, list, items);
      DropTail();
    }

    // move_to_front on the node the map holds for key
    method Promote(node: Node<K, V>, ghost key: K)
      requires Valid() && key in index && index[key] == node
      modifies this`head, this`tail, this`list, this`items, list
      ensures Valid() && node in list
      ensures unchanged(`capacity, `size, `index, `hits, `misses, `made, `freed)
      ensures Hit(old(items), key, node.value) && items == [Entry(key, node.value)] + Without(old(items), key)
      ensures node.value == old(node.value)
      ensures NodeSet(list) == NodeSet(old(list))
    {
      hide Unique, Distinct, Indexed, Linked, Carries, ToFront, Without, IndexOf, NodeSet, Hit;
      ghost var i := HitPosition(index, list, items, key);
      CarriesAt(list, items, i);
      MoveToFront(node, i);
      CarriesAt(list, items, 0);
    }

    // get
    method Get(key: K) returns (r: Option<V>)
      requires Valid()
      modifies this, list
      ensures Valid()
      ensures Model() == LruModel.Get(old(Model()), key) && r == Found(old(Model()), key)
      ensures unchanged(`made, `freed) && NodeSet(list) == NodeSet(old(list))
    {
      hide Unique, Distinct, Indexed, Linked, Carries, Without, IndexOf, NodeSet, Hit, Has;
      HasKey(index, list, items, key);
      if key !in index {
        misses := misses + 1;
        return None;
      }
      hits := hits + 1;
      var node := index[key];
      Promote(node, key);
      HitFound(old(Model()), key, node.value);
      return Some(node.value);
    }

    // node->value = value
    method SetValue(node: Node<K, V>, ghost i: nat, value: V)
      requires Distinct(list) && Linked(list, head, tail) && Carries(list, items)
      requires i < |list| && list[i] == node
      modifies node`value, this`items
      ensures Linked(list, head, tail) && Carries(list, items)
      ensures items == old(items)[i := Entry(old(items)[i].key, value)] && node.value == value
    {
      node.value := value;
      items := items[i := Entry(items[i].key, value)];
    }

    // the hit half of put
    method Overwrite(node: Node<K, V>, ghost key: K, value: V)
      requires Valid() && key in index && index[key] == node
      modifies this`head, this`tail, this`list, this`items, list
      ensures Valid()
      ensures unchanged(`capacity, `size, `index, `hits, `misses, `made, `freed)
      ensures Has(old(items), key) && items == [Entry(key, value)] + Without(old(items), key)
      ensures NodeSet(list) == NodeSet(old(list))
    {
      hide Unique, Distinct, Indexed, Linked, Carries, ToFront, Without, IndexOf, NodeSet, Hit, Has;
      ghost var i := Position(index, list, items, key);
      OverwriteItems(items, i, value);
      OverwriteIndex(index, list, items, i, value);
      SetValue(node, i, value);
      Promote(node, key);
    }

    // the miss half of put, after the eviction
    method Insert(key: K, value: V)
      requires Valid() && !Has(items, key)
      modifies this, list
      ensures Valid()
      ensures items == [Entry(key, value)] + old(items)
      ensures unchanged(`capacity, `hits, `misses, `freed)
      ensures |list| == |old(list)| + 1 && list == [list[0]] + old(list)
      ensures fresh(list[0]) && made == old(made) + {list[0]}
    {
      hide Unique, Distinct, Indexed, Linked, Carries, NodeSet, Has;
      var newNode := new Node(key, value);
      made := made + {newNode};
      InsertFacts(index, list, items, newNode, Entry(key, value));
      index := index[key := newNode];
      AddToFront(newNode);
      size := size + 1;
    }

    // put
    method Put(key: K, value: V)
      requires Valid()
      modifies this, list
      ensures Valid() && Model() == LruModel.Put(old(Model()), Entry(key, value))
      ensures forall n :: n in list ==> n in old(list) || fresh(n)
      ensures Has(old(items), key) ==> made == old(made)
      ensures !Has(old(items), key) ==> |list| > 0 && fresh(list[0]) && made == old(made) + {list[0]}
      ensures freed == old(freed) + (NodeSet(old(list)) - NodeSet(list))
    {
      hide Unique, Distinct, Indexed, Linked, Carries, Without, Has;
      HasKey(index, list, items, key);
      if key in index {
        Overwrite(index[key], key, value);
        assert forall n :: n in list ==> n in NodeSet(list);
        return;
      }
      EvictLastMissing(items, key);
      if size == capacity {
        EvictLru();
      }
      Insert(key, value);
      NewlyFreed(old(made), old(freed), NodeSet(old(list)), made, freed, NodeSet(list));
    }

    // evict_to
    method EvictTo(newCapacity: nat)
      requires Valid()
      modifies this, list
      ensures Valid() && Model() == LruModel.EvictTo(old(Model()), newCapacity)
      ensures list <= old(list) && made == old(made)
      ensures freed == old(freed) + (NodeSet(old(list)) - NodeSet(list))
    {
      hide Unique, Distinct, Indexed, Linked, Carries, NodeSet;
      SizeOfItems(list, items);
      while size > newCapacity && size > 0
        invariant Valid() && list <= old(list) && items <= old(items)
        invariant capacity == old(capacity) && hits == old(hits) && misses == old(misses)
        invariant made == old(made) && old(freed) <= freed
        invariant size == |items| >= Min(newCapacity, |old(items)|)
      {
        EvictLru();
        SizeOfItems(list, items);
      }
      NewlyFreed(old(made), old(freed), NodeSet(old(list)), made, freed, NodeSet(list));
    }

    // resize
    method Resize(newCapacity: nat)
      requires Valid()
      modifies this, list
      ensures Valid() && Model() == Resized(old(Model()), newCapacity)
      ensures list <= old(list) && made == old(made)
      ensures freed == old(freed) + (NodeSet(old(list)) - NodeSet(list))
    {
      hide Unique, Distinct, Indexed, Linked, Carries, NodeSet;
      capacity := newCapacity;
      EvictTo(capacity);
    }

    // reset_stats
    method ResetStats()
      requires Valid()
      modifies this`hits, this`misses
      ensures Valid() && Model() == old(Model()).(hits := 0, misses := 0)
    {
      hide Unique, Distinct, Indexed, Linked, Carries, NodeSet;
      hits, misses := 0, 0;
    }

    // ~LRUCache: afterwards every node ever allocated has been deleted, none of them twice.
    method Destroy()
      requires Valid()
      modifies this`freed
      ensures freed == made
    {
      var curr := head;
      ghost var i := 0;
      while curr != null
        invariant i <= |list| && curr == if i == |list| then null else list[i]
        invariant freed == old(freed) + NodeSet(list[..i])
        decreases |list| - i
      {
        var next := curr.next;
        assert list[..i + 1] == list[..i] + [curr];
        Delete(curr);
        curr := next;
        i := i + 1;
      }
      assert list[..i] == list;
    }
  }

  // If nodes are conserved before and after, and every new node is linked, then exactly the nodes
  // that left the list were deleted.
  lemma NewlyFreed<T>(made0: set<T>, freed0: set<T>, list0: set<T>, made: set<T>, freed: set<T>, list: set<T>)
    requires made0 == freed0 + list0 && freed0 !! list0 && made == freed + list && freed !! list
    requires made0 <= made && freed0 <= freed && made - made0 <= list
    ensures freed == freed0 + (list0 - list)
  {
  }

  // The first entry for key carries v.
  ghost predicate Hit<K, V>(items: seq<Entry<K, V>>, key: K, v: V) {
    var i := IndexOf(items, key);
    i < |items| && items[i] == Entry(key, v)
  }

  lemma HasKey<K, V>(index: map<K, Node<K, V>>, list: seq<Node<K, V>>, items: seq<Entry<K, V>>, key: K)
    requires Indexed(index, list, items)
    ensures |list| == |items|
    ensures key in index <==> Has(items, key)
    ensures key !in index ==> IndexOf(items, key) == |items|
  {
    assert key in index <==> key in KeySet(items);
  }

  lemma HitFound<K, V>(c: Cache<K, V>, key: K, v: V)
    requires Hit(c.items, key, v)
    ensures Found(c, key) == Some(v)
  {
  }

  lemma CarriesAt<K, V>(list: seq<Node<K, V>>, items: seq<Entry<K, V>>, i: nat)
    requires Carries(list, items) && i < |list|
    ensures items[i] == Entry(list[i].key, list[i].value)
  {
  }

  lemma SizeOfItems<K, V>(list: seq<Node<K, V>>, items: seq<Entry<K, V>>)
    requires Carries(list, items)
    ensures |list| == |items|
  {
  }

  lemma HitPosition<K, V>(index: map<K, Node<K, V>>, list: seq<Node<K, V>>, items: seq<Entry<K, V>>, key: K) returns (i: nat)
    requires Distinct(list) && Unique(items) && Indexed(index, list, items) && key in index
    ensures i < |list| && |list| == |items| && list[i] == index[key] && items[i].key == key
    ensures Hit(items, key, items[i].value)
    ensures var list', items' := ToFront(list, i), ToFront(items, i);
            && Distinct(list') && Unique(items') && Indexed(index, list', items')
            && |list'| == |list| && index[key] in list' && NodeSet(list') == NodeSet(list)
            && items' == [Entry(key, items[i].value)] + Without(items, key)
  {
    hide Distinct, Unique, Indexed, ToFront, Without, Hit, KeySet, NodeSet, IndexOf;
    i := Position(index, list, items, key);
    PromoteItems(items, i, items[i].value);
    PromoteIndex(index, list, items, i, items[i].value);
    assert items[i := Entry(items[i].key, items[i].value)] == items;
    DistinctWithout(list, i);
    NodeSetToFront(list, i);
  }

  lemma Position<K, V>(index: map<K, Node<K, V>>, list: seq<Node<K, V>>, items: seq<Entry<K, V>>, key: K) returns (i: nat)
    requires Indexed(index, list, items) && key in index
    ensures i < |list| && |list| == |items| && list[i] == index[key] && items[i].key == key
    ensures Hit(items, key, items[i].value)
  {
    i := IndexOf(items, key);
    assert key in KeySet(items);
  }

  lemma NodeSetToFront<K, V>(list: seq<Node<K, V>>, i: nat)
    requires Distinct(list) && i < |list|
    ensures NodeSet(ToFront(list, i)) == NodeSet(list) && list[i] in ToFront(list, i) && |ToFront(list, i)| == |list|
  {
    DistinctWithout(list, i);
  }

  lemma DistinctWithout<T>(s: seq<T>, i: nat)
    requires Distinct(s) && i < |s|
    ensures var rest := s[..i] + s[i + 1..];
            s[i] !in rest && Distinct(rest) && Distinct(ToFront(s, i))
    ensures forall x :: x in s <==> x in ToFront(s, i)
    ensures s[i] == s[0] ==> i == 0
  {
    assert s == s[..i] + [s[i]] + s[i + 1..];
  }

  lemma ToFrontZero<T>(s: seq<T>)
    requires |s| > 0
    ensures ToFront(s, 0) == s
  {
    assert [s[0]] + (s[..0] + s[1..]) == s;
  }

  // Pure bookkeeping of a hit at position i that leaves value v there.
  lemma PromoteItems<K, V>(items: seq<Entry<K, V>>, i: nat, v: V)
    requires Unique(items) && i < |items|
    ensures var key := items[i].key;
            var items' := ToFront(items[i := Entry(key, v)], i);
            && items' == [Entry(key, v)] + Without(items, key)
            && Unique(items') && KeySet(items') == KeySet(items)
  {
    var key := items[i].key;
    var updated := items[i := Entry(key, v)];
    var items' := ToFront(updated, i);
    assert items' == [Entry(key, v)] + Without(items, key) by {
      WithoutIndex(items, key);
      assert IndexOf(items, key) == i;
      assert updated[..i] == items[..i] && updated[i + 1..] == items[i + 1..];
    }
    WithoutKeys(items, key);
    ConsKeys(Entry(key, v), Without(items, key));
    assert key in KeySet(items);
  }

  // Where position j of ToFront(s, i) comes from.
  ghost function Source(i: nat, j: nat): nat {
    if j == 0 then i else if j <= i then j - 1 else j
  }

  lemma ToFrontAt<T>(s: seq<T>, i: nat)
    requires i < |s|
    ensures |ToFront(s, i)| == |s|
    ensures forall j :: 0 <= j < |s| ==> Source(i, j) < |s| && ToFront(s, i)[j] == s[Source(i, j)]
  {
  }

  lemma PromoteIndex<K, V>(index: map<K, Node<K, V>>, list: seq<Node<K, V>>, items: seq<Entry<K, V>>, i: nat, v: V)
    requires Unique(items) && Indexed(index, list, items) && i < |items|
    ensures Indexed(index, ToFront(list, i), ToFront(items[i := Entry(items[i].key, v)], i))
  {
    var updated := items[i := Entry(items[i].key, v)];
    PromoteItems(items, i, v);
    ToFrontAt(list, i);
    ToFrontAt(updated, i);
    forall j | 0 <= j < |items|
      ensures ToFront(updated, i)[j].key in index && index[ToFront(updated, i)[j].key] == ToFront(list, i)[j]
    {
      assert updated[Source(i, j)].key == items[Source(i, j)].key;
    }
  }

  lemma OverwriteItems<K, V>(items: seq<Entry<K, V>>, i: nat, v: V)
    requires Unique(items) && i < |items|
    ensures var updated := items[i := Entry(items[i].key, v)];
            && Unique(updated) && Has(items, items[i].key)
            && Without(updated, items[i].key) == Without(items, items[i].key)
  {
    hide IndexOf, Without;
    var key := items[i].key;
    var updated := items[i := Entry(key, v)];
    assert updated[i].key == key;
    UpdatedUnique(items, i, v);
    KeyPlace(items, i);
    KeyPlace(updated, i);
    WithoutIndex(items, key);
    WithoutIndex(updated, key);
    assert updated[..i] == items[..i] && updated[i + 1..] == items[i + 1..];
  }

  lemma UpdatedUnique<K, V>(items: seq<Entry<K, V>>, i: nat, v: V)
    requires Unique(items) && i < |items|
    ensures Unique(items[i := Entry(items[i].key, v)])
  {
  }

  lemma OverwriteIndex<K, V>(index: map<K, Node<K, V>>, list: seq<Node<K, V>>, items: seq<Entry<K, V>>, i: nat, v: V)
    requires Indexed(index, list, items) && i < |items|
    ensures Indexed(index, list, items[i := Entry(items[i].key, v)])
  {
    var updated := items[i := Entry(items[i].key, v)];
    assert KeySet(updated) == KeySet(items) by {
      forall k | k in KeySet(items) ensures k in KeySet(updated) {
        var j :| 0 <= j < |items| && items[j].key == k;
        assert updated[j].key == k;
      }
    }
  }

  lemma InsertFacts<K, V>(index: map<K, Node<K, V>>, list: seq<Node<K, V>>, items: seq<Entry<K, V>>,
                          node: Node<K, V>, e: Entry<K, V>)
    requires Distinct(list) && Unique(items) && Indexed(index, list, items)
    requires node !in list && !Has(items, e.key)
    ensures Distinct([node] + list) && Unique([e] + items)
    ensures Indexed(index[e.key := node], [node] + list, [e] + items)
    ensures NodeSet([node] + list) == NodeSet(list) + {node} && node !in NodeSet(list)
  {
    ConsKeys(e, items);
    assert e.key !in KeySet(items);
  }

  lemma EvictLastMissing<K, V>(items: seq<Entry<K, V>>, key: K)
    requires !Has(items, key)
    ensures !Has(EvictLast(items), key)
  {
  }

  lemma TailCarries<K, V>(list: seq<Node<K, V>>, items: seq<Entry<K, V>>, head: Node?<K, V>, tail: Node?<K, V>)
    requires Linked(list, head, tail) && Carries(list, items) && tail != null
    ensures |list| > 0 && |items| == |list| && items[|list| - 1].key == tail.key
  {
  }

  lemma HeadIsFirst<K, V>(list: seq<Node<K, V>>, head: Node?<K, V>, tail: Node?<K, V>)
    requires Linked(list, head, tail) && |list| > 0
    ensures head == list[0]
  {
  }

  lemma DropLast<K, V>(index: map<K, Node<K, V>>, list: seq<Node<K, V>>, items: seq<Entry<K, V>>)
    requires Distinct(list) && |list| > 0 && Unique(items) && Indexed(index, list, items)
    ensures var n := |list| - 1;
            && NodeSet(list) == NodeSet(list[..n]) + {list[n]}
            && list[n] !in list[..n]
            && Indexed(index - {items[n].key}, list[..n], items[..n])
            && Unique(items[..n]) && Distinct(list[..n])
  {
    var n := |list| - 1;
    assert forall m :: m in list ==> m in list[..n] || m == list[n];
    assert KeySet(items[..n]) == KeySet(items) - {items[n].key} by {
      forall k | k in KeySet(items) - {items[n].key} ensures k in KeySet(items[..n]) {
        var i :| 0 <= i < |items| && items[i].key == k;
        assert items[..n][i].key == k;
      }
    }
  }
}
