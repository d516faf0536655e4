// GovernedCache: a cache that applies the daemon's byte targets and reports its size back.
module GovernedModel {
  import opened Wrappers
  import opened LruModel
  import opened RealLaws
  import opened Transport
  import opened Registry
  import Protocol

  type Store = Cache<string, string>

  // handle_shrink and handle_grow: the new cache, and the byte size reported if the target applied.
  ghost function Handle(c: Store, entryBytes: nat, command: Command): (Store, Option<nat>)
    requires entryBytes > 0
  {
    var target := command.bytes / entryBytes;
    var applies := if command.ShrinkTo? then target < c.capacity else target > c.capacity;
    if applies then (Resized(c, target), Some(|Resized(c, target).items| * entryBytes)) else (c, None)
  }

  // In bytes, and for both directions: a command applies exactly when its target is below the
  // capacity, or at least one entry above it; then the new capacity is what the target holds, and the
  // report is the size of the entries held afterwards. A GROW evicts nothing.
  lemma HandleReports(c: Store, entryBytes: nat, command: Command)
    requires entryBytes > 0
    ensures var (d, report) := Handle(c, entryBytes, command);
            var b := command.bytes;
            && (report.Some? <==>
                  if command.ShrinkTo? then b < c.capacity * entryBytes else b >= (c.capacity + 1) * entryBytes)
            && (report.None? ==> d == c)
            && (report.Some? ==>
                  && report.value == |d.items| * entryBytes
                  && d.capacity * entryBytes <= b < (d.capacity + 1) * entryBytes
                  && d.hits == c.hits && d.misses == c.misses && d.items == c.items[..Min(d.capacity, |c.items|)])
            && (command.GrowTo? && |c.items| <= c.capacity ==> d.items == c.items)
  {
    hide Resized;
    var q := command.bytes / entryBytes;
    QuotientFits(command.bytes, entryBytes, q);
    QuotientSides(command.bytes, entryBytes, q, c.capacity);
    ResizedIs(c, q);
    assert c.items[..|c.items|] == c.items;
  }

  lemma QuotientSides(b: nat, entryBytes: nat, q: nat, n: nat)
    requires entryBytes > 0 && q == b / entryBytes
    ensures q < n <==> b < n * entryBytes
    ensures q > n <==> b >= (n + 1) * entryBytes
  {
    QuotientFits(b, entryBytes, q);
    if q < n { MultiplesAscend(q + 1, n, entryBytes); }
    if q >= n { MultiplesAscend(n, q, entryBytes); }
    if q > n { MultiplesAscend(n + 1, q, entryBytes); }
    if q <= n { MultiplesAscend(q + 1, n + 1, entryBytes); }
  }

  lemma QuotientFits(b: nat, entryBytes: nat, q: nat)
    requires entryBytes > 0 && q == b / entryBytes
    ensures q * entryBytes <= b < (q + 1) * entryBytes
  {
    assert b == q * entryBytes + b % entryBytes;
  }

  lemma ResizedIs(c: Store, n: nat)
    ensures Resized(c, n) == Cache(n, c.items[..Min(n, |c.items|)], c.hits, c.misses)
  {
  }

  // One message from the daemon, with both callbacks set: anything but SHRINK and GROW is ignored.
  ghost function Take(c: Store, entryBytes: nat, msg: Protocol.Message): (Store, Option<nat>)
    requires entryBytes > 0
  {
    match CommandOf(msg)
    case None => (c, None)
    case Some(command) => Handle(c, entryBytes, command)
  }

  // Which messages are commands, and what each does in bytes.
  lemma TakeReports(c: Store, entryBytes: nat, m: Protocol.Message)
    requires entryBytes > 0
    ensures var (d, report) := Take(c, entryBytes, m);
            && (report.Some? <==>
                  || (m.kind == Protocol.SHRINK && m.targetBytes < c.capacity * entryBytes)
                  || (m.kind == Protocol.GROW && m.targetBytes >= (c.capacity + 1) * entryBytes))
            && (report.None? ==> d == c)
            && (report.Some? ==>
                  && report.value == |d.items| * entryBytes
                  && d.capacity * entryBytes <= m.targetBytes < (d.capacity + 1) * entryBytes
                  && d.items == c.items[..Min(d.capacity, |c.items|)])
  {
    hide Handle;
    if CommandOf(m).Some? { HandleReports(c, entryBytes, CommandOf(m).value); }
  }

  // ----- what a broadcast does to one cache

  function Entries(n: nat, x: real): (k: nat)
    requires x >= 0.0
    ensures k as real <= Times(n as real, x) < k as real + 1.0
  {
    Units(x);
    Monotone(0.0, n as real, x);
    Times(n as real, x).Floor
  }

  // Scaling bytes, rounding, and dividing by the entry size rounds only once.
  lemma NestedFloor(n: nat, entryBytes: nat, dir: Direction, fraction: real)
    requires entryBytes > 0 && 0.0 <= fraction <= 1.0
    ensures 0.0 <= Factor(dir, fraction)
    ensures Target(dir, n * entryBytes, fraction) / entryBytes == Entries(n, Factor(dir, fraction))
  {
    FactorRange(dir, fraction);
    hide Target, Factor, Exact, Entries, Times;
    var x := Factor(dir, fraction);
    var k := Entries(n, x);
    ExactScales(n, entryBytes, dir, fraction);
    Bracket(Target(dir, n * entryBytes, fraction), Times(n as real, x), k, entryBytes, k * entryBytes);
    Quotient(Target(dir, n * entryBytes, fraction), k, entryBytes);
  }

  lemma FactorRange(dir: Direction, fraction: real)
    requires 0.0 <= fraction <= 1.0
    ensures 0.0 <= Factor(dir, fraction) <= 2.0
  {
  }

  lemma ExactScales(n: nat, b: nat, dir: Direction, fraction: real)
    ensures Exact(dir, n * b, fraction) == Times(Times(n as real, Factor(dir, fraction)), b as real)
  {
    hide Times, Factor;
    var x := Factor(dir, fraction);
    Naturals(n, b);
    Associates(n as real, b as real, x);
    Commutes(b as real, x);
    Associates(n as real, x, b as real);
  }

  lemma Quotient(t: nat, k: nat, b: nat)
    requires b > 0 && k * b <= t < k * b + b
    ensures t / b == k
  {
    var q := t / b;
    assert t == q * b + t % b;
    if q < k { MultiplesAscend(q + 1, k, b); }
    if k < q { MultiplesAscend(k + 1, q, b); }
  }

  lemma MultiplesAscend(m: nat, n: nat, b: nat)
    requires m <= n
    ensures m * b <= n * b
  {
  }

  // With an accurate report, SHRINK f leaves exactly the floor(S * (1 - f)) most recently used
  // entries, and whatever is on record afterwards is accurate again.
  lemma ShrinkIsProportional(c: Store, entryBytes: nat, fraction: real)
    requires entryBytes > 0 && 0.0 <= fraction <= 1.0 && |c.items| <= c.capacity
    ensures var keep := Entries(|c.items|, 1.0 - fraction);
            var onRecord := |c.items| * entryBytes;
            var (d, report) := Handle(c, entryBytes, ShrinkTo(Target(Shrinking, onRecord, fraction)));
            && keep <= |c.items| && d.items == c.items[..keep]
            && (if report.Some? then report.value else onRecord) == |d.items| * entryBytes
            && d.capacity == keep
  {
    NestedFloor(|c.items|, entryBytes, Shrinking, fraction);
    AtMost(|c.items|, 1.0 - fraction);
    assert Factor(Shrinking, fraction) == 1.0 - fraction;
  }

  lemma AtMost(n: nat, x: real)
    requires 0.0 <= x <= 1.0
    ensures Entries(n, x) <= n
  {
    hide Times;
    Monotone(x, 1.0, n as real);
    Commutes(n as real, x);
    Units(n as real);
  }

  // What a shrink and a grow by the same fraction multiply to: 1 - f * f.
  function Regained(fraction: real): (x: real)
    requires 0.0 <= fraction <= 1.0
    ensures 0.0 <= x <= 1.0 && (x == 1.0 <==> fraction == 0.0)
  {
    SquareRange(fraction);
    1.0 - Times(fraction, fraction)
  }

  lemma SquareRange(f: real)
    requires 0.0 <= f <= 1.0
    ensures 0.0 <= Times(f, f) <= f && (f > 0.0 ==> Times(f, f) > 0.0) && (f == 0.0 ==> Times(f, f) == 0.0)
  {
    if f > 0.0 { Positive(f, f); }
    Monotone(f, 1.0, f);
    Units(f);
  }

  // What is left of c after a SHRINK computed from an accurate report.
  ghost function Cut(c: Store, entryBytes: nat, fraction: real): Store
    requires entryBytes > 0 && 0.0 <= fraction <= 1.0
  {
    Handle(c, entryBytes, ShrinkTo(Target(Shrinking, |c.items| * entryBytes, fraction))).0
  }

  // The cache after a SHRINK and then a GROW by the same fraction, each computed from an accurate
  // report, with no puts in between.
  ghost function GrownBack(c: Store, entryBytes: nat, fraction: real): Store
    requires entryBytes > 0 && 0.0 <= fraction <= 1.0
  {
    var d := Cut(c, entryBytes, fraction);
    Handle(d, entryBytes, GrowTo(Target(Growing, |d.items| * entryBytes, fraction))).0
  }

  // It has the shrunk entries, exactly the twice rounded capacity, and so never more than
  // floor(S * (1 - f * f)).
  lemma GrowBackUndershoots(c: Store, entryBytes: nat, fraction: real)
    requires entryBytes > 0 && 0.0 <= fraction <= 1.0 && |c.items| <= c.capacity
    ensures var keep, g := Entries(|c.items|, 1.0 - fraction), GrownBack(c, entryBytes, fraction);
            && keep <= |c.items| && g.items == c.items[..keep]
            && g.capacity == Entries(keep, 1.0 + fraction) <= Entries(|c.items|, Regained(fraction))
  {
    hide Target, Entries, Regained;
    ShrinkIsProportional(c, entryBytes, fraction);
    var keep := Entries(|c.items|, 1.0 - fraction);
    NestedFloor(keep, entryBytes, Growing, fraction);
    assert Factor(Growing, fraction) == 1.0 + fraction;
    AtLeast(keep, 1.0 + fraction);
    Compose(|c.items|, fraction);
  }

  // It has at least the capacity for what it held before if and only if nothing was to be shrunk.
  lemma GrowBackRestoresIff(c: Store, entryBytes: nat, fraction: real)
    requires entryBytes > 0 && 0.0 <= fraction <= 1.0 && |c.items| <= c.capacity
    ensures GrownBack(c, entryBytes, fraction).capacity >= |c.items| <==> fraction == 0.0 || |c.items| == 0
  {
    hide Entries, GrownBack, Regained;
    GrowBackUndershoots(c, entryBytes, fraction);
    if fraction == 0.0 {
      EntriesWhole(|c.items|);
    } else if |c.items| > 0 {
      EntriesLost(|c.items|, fraction);
    }
  }

  lemma EntriesWhole(n: nat)
    ensures Entries(n, 1.0) == n
  {
    Units(n as real);
  }

  lemma EntriesLost(n: nat, fraction: real)
    requires n > 0 && 0.0 < fraction <= 1.0
    ensures Entries(n, Regained(fraction)) < n
  {
    hide Entries, Times;
    var x := Regained(fraction);
    Distributes(1.0, 1.0 - x, n as real);
    Positive(1.0 - x, n as real);
    Commutes(n as real, x);
    Units(n as real);
  }

  lemma AtLeast(n: nat, x: real)
    requires 1.0 <= x
    ensures n <= Entries(n, x)
  {
    hide Times;
    Monotone(1.0, x, n as real);
    Commutes(n as real, x);
    Units(n as real);
  }

  // Ten entries, ten per cent: nine entries, and capacity for nine after growing back.
  lemma TenPerCentOfTenIsLost(c: Store, entryBytes: nat)
    requires entryBytes > 0 && |c.items| == 10 && c.capacity >= 10
    ensures GrownBack(c, entryBytes, 0.1).capacity == 9
  {
    hide Handle, GrownBack;
    GrowBackUndershoots(c, entryBytes, 0.1);
    assert Entries(10, 0.9) == 9 && Entries(9, 1.1) == 9;
  }

  // ----- when a SHRINK leaves no capacity

  // Whatever the cache holds, a SHRINK computed from the record R takes it to capacity 0 exactly
  // when R * (1 - f) is less than one entry.
  lemma ShrinkZeroesIff(c: Store, entryBytes: nat, onRecord: nat, fraction: real)
    requires entryBytes > 0 && 0.0 <= fraction <= 1.0 && c.capacity >= 1
    ensures Handle(c, entryBytes, ShrinkTo(Target(Shrinking, onRecord, fraction))).0.capacity == 0
       <==> Exact(Shrinking, onRecord, fraction) < entryBytes as real
  {
    ZeroQuotient(Target(Shrinking, onRecord, fraction), entryBytes);
    BelowWhole(Target(Shrinking, onRecord, fraction), Exact(Shrinking, onRecord, fraction), entryBytes);
    hide Target, Exact;
  }

  lemma ZeroQuotient(t: nat, b: nat)
    requires b > 0
    ensures t / b == 0 <==> t < b
  {
  }

  // The integer part of x is below a whole number exactly when x is.
  lemma BelowWhole(t: nat, x: real, b: nat)
    requires t as real <= x < t as real + 1.0
    ensures t < b <==> x < b as real
  {
    assert t < b ==> t as real + 1.0 <= b as real;
  }

  // A client on record with one entry of 256 bytes is taken to capacity 0 by the first default
  // SHRINK, whatever it holds by then.
  lemma OneEntryIsZeroed(c: Store)
    requires c.capacity >= 1
    ensures var d := Handle(c, 256, ShrinkTo(Target(Shrinking, 256, 0.1))).0;
            d.capacity == 0 && |d.items| == 0
  {
    assert Exact(Shrinking, 256, 0.1) < 256.0;
    ShrinkZeroesIff(c, 256, 256, 0.1);
    hide Target, Exact;
  }

  // Three entries go 2, 1, 0 on the default way up to CRITICAL.
  lemma ThreeEntriesAreGone(c: Store, entryBytes: nat)
    requires entryBytes > 0 && |c.items| == 3 && c.capacity >= 3
    ensures var elevated := Cut(c, entryBytes, 0.1);
            var high := Cut(elevated, entryBytes, 0.25);
            elevated.capacity == 2 && high.capacity == 1 && Cut(high, entryBytes, 0.5).capacity == 0
  {
    hide Handle, Target;
    assert Entries(3, 0.9) == 2 && Entries(2, 0.75) == 1 && Entries(1, 0.5) == 0;
    ShrinkIsProportional(c, entryBytes, 0.1);
    var elevated := Cut(c, entryBytes, 0.1);
    ShrinkIsProportional(elevated, entryBytes, 0.25);
    ShrinkIsProportional(Cut(elevated, entryBytes, 0.25), entryBytes, 0.5);
  }

  lemma Compose(n: nat, fraction: real)
    requires 0.0 <= fraction <= 1.0
    ensures var keep, regained := Entries(n, 1.0 - fraction), Entries(n, Regained(fraction));
            keep <= regained && Entries(keep, 1.0 + fraction) <= regained
  {
    hide Entries, Regained, Times;
    var keep := Entries(n, 1.0 - fraction);
    var y := Times(n as real, 1.0 - fraction);
    Monotone(keep as real, y, 1.0 + fraction);
    Associates(n as real, 1.0 - fraction, 1.0 + fraction);
    RegainedIs(fraction);
    Monotone(1.0, 1.0 + fraction, keep as real);
    Commutes(keep as real, 1.0 + fraction);
    Units(keep as real);
  }

  lemma RegainedIs(fraction: real)
    requires 0.0 <= fraction <= 1.0
    ensures Times(1.0 - fraction, 1.0 + fraction) == Regained(fraction)
  {
  }
}

module GovernedCache {
  import opened Wrappers
  import opened LruModel
  import opened LruCache
  import opened Protocol
  import opened Framing
  import opened Transport
  import opened GovernedModel
  import opened Listener

  class GovernedCache {
    const cache: LRUCache<string, string>
    const client: GovernorClient
    const estimatedEntryBytes: nat

    constructor (maxCapacity: nat, governor: GovernorClient, entryBytes: nat)
      requires entryBytes > 0
      modifies governor`on
      ensures Valid() && cache.Model() == Empty(maxCapacity)
      ensures client == governor && estimatedEntryBytes == entryBytes && fresh(cache)
      ensures client.on == Callbacks(true, true)
    {
      client, estimatedEntryBytes := governor, entryBytes;
      cache := new LRUCache<string, string>(maxCapacity);
      new;
      governor.OnShrink();
      governor.OnGrow();
    }

    // estimated_entry_bytes divides every target, so the source cannot run with 0; the callbacks stay
    // set.
    ghost predicate Valid()
      reads cache, cache.list, client`on
    {
      cache.Valid() && estimatedEntryBytes > 0 && client.on == Callbacks(true, true)
    }

    // start: connect, then register the size the cache has now. accepted says whether the operating
    // system makes the connection; if it does not, nothing is sent.
    method Start(accepted: bool) returns (registered: bool)
      requires Valid()
      modifies client`connected, client.sock`sent
      ensures client.sock == old(client.sock)
      ensures var bytes := |cache.Model().items| * estimatedEntryBytes;
              registered ==> client.sock.sent == old(client.sock.sent) + FrameBytes(RegisterMessage(client.pid, bytes))
      ensures var bytes := |cache.Model().items| * estimatedEntryBytes;
              !registered ==>
                !client.connected
                && (client.sock.sent == old(client.sock.sent)
                    || SentPart(old(client.sock.sent), client.sock.sent, RegisterMessage(client.pid, bytes)))
      ensures !old(client.connected) && !accepted ==> !registered && client.sock.sent == old(client.sock.sent)
    {
      hide FrameBytes, SentPart, LRUCache.Valid;
      var ok := client.Connect(accepted);
      if !ok { return false; }
      SizeIsLength(cache);
      registered := client.RegisterCache(cache.size * estimatedEntryBytes);
    }

    method Get(key: string) returns (r: Option<string>)
      requires Valid()
      modifies cache, cache.list
      ensures Valid() && cache.Model() == LruModel.Get(old(cache.Model()), key) && r == Found(old(cache.Model()), key)
    {
      hide LRUCache.Valid, LruModel.Get, Found;
      r := cache.Get(key);
    }

    method Put(key: string, value: string)
      requires Valid()
      modifies cache, cache.list
      ensures Valid() && cache.Model() == LruModel.Put(old(cache.Model()), Entry(key, value))
    {
      hide LRUCache.Valid, LruModel.Put;
      cache.Put(key, value);
    }

    // handle_shrink and handle_grow: apply the target if it lies on the right side of the capacity,
    // then report; a target that does not apply changes nothing and reports nothing.
    method HandleCommand(command: Command) returns (ghost sent: bool)
      requires Valid()
      modifies cache, cache.list, client`connected, client.sock`sent
      ensures Valid() && client.sock == old(client.sock) && cache.list <= old(cache.list)
      ensures var (after, report) := Handle(old(cache.Model()), estimatedEntryBytes, command);
              cache.Model() == after && Reported(report, sent, old(client.connected), old(client.sock.sent))
      ensures var bytes := |cache.Model().items| * estimatedEntryBytes;
              sent && cache.capacity != old(cache.capacity) && Fits(client.pid, bytes) ==>
                old(client.sock.sent) <= client.sock.sent
                && ServerDecode(client.sock.sent[|old(client.sock.sent)|..])
                   == ([Message(REPORT_SIZE, client.pid, 0, bytes, 0)], EndOfStream)
    {
      hide FrameBytes, SentPart, LRUCache.Valid, Resized, ServerDecode;
      var targetCapacity := command.bytes / estimatedEntryBytes;
      sent := true;
      if if command.ShrinkTo? then targetCapacity < cache.capacity else targetCapacity > cache.capacity {
        cache.Resize(targetCapacity);
        SizeIsLength(cache);
        var ok := client.ReportSize(cache.size * estimatedEntryBytes);
        sent := ok;
      }
    }

    // What a command leaves of the connection: without a report nothing changes; a report is sent
    // whole, or part of it is and the connection is dropped.
    ghost predicate Reported(report: Option<nat>, sent: bool, wasConnected: bool, before: seq<Byte>)
      reads client, client.sock
    {
      match report
      case None => sent && client.connected == wasConnected && client.sock.sent == before
      case Some(bytes) =>
        if sent then
          wasConnected && client.connected && client.sock.sent == before + FrameBytes(ReportMessage(client.pid, bytes))
        else
          !client.connected && SentPart(before, client.sock.sent, ReportMessage(client.pid, bytes))
    }

    // process_message, with the callbacks the constructor sets
    method ProcessMessage(msg: Message) returns (ghost sent: bool)
      requires Valid()
      modifies cache, cache.list, client`connected, client.sock`sent
      ensures Valid() && client.sock == old(client.sock) && cache.list <= old(cache.list)
      ensures var (after, report) := Take(old(cache.Model()), estimatedEntryBytes, msg);
              cache.Model() == after && Reported(report, sent, old(client.connected), old(client.sock.sent))
    {
      hide FrameBytes, SentPart, LRUCache.Valid, Handle;
      sent := true;
      if msg.kind == SHRINK && client.on.shrink {
        sent := HandleCommand(ShrinkTo(msg.targetBytes));
      } else if msg.kind == GROW && client.on.grow {
        sent := HandleCommand(GrowTo(msg.targetBytes));
      }
    }

    // listener_loop, from a connected start until the connection is lost or a number throws. ending is
    // None if a report could not be written.
    method Listen() returns (ending: Option<Ending>, ghost talk: Talk)
      requires Valid() && client.connected
      modifies cache, cache.list, client`connected, client.sock`sent, client.sock`incoming
      ensures Valid() && client.sock == old(client.sock) && cache.list <= old(cache.list)
      ensures Heard(old(cache.Model()), estimatedEntryBytes, client.pid, old(client.sock.incoming), talk)
      ensures cache.Model() == TakeAll(old(cache.Model()), estimatedEntryBytes, talk.handled).0
      ensures client.sock.sent == old(client.sock.sent) + talk.sent
      ensures ending == talk.ending && (client.connected <==> Throws(talk))
    {
      hide ClientDecode, FrameBytes, Frames, SentPart, LRUCache.Valid, Take, TakeAll, Reports, Heard, ReportLost;
      var sock := client.sock;
      ghost var before, input := cache.Model(), sock.incoming;
      ghost var handled := [];
      ghost var sizes := [];
      NothingHeard(before, estimatedEntryBytes, client.pid, input, sock.sent);
      while true
        invariant Valid() && client.connected && client.sock == sock && cache.list <= old(cache.list)
        invariant (cache.Model(), sizes) == TakeAll(before, estimatedEntryBytes, handled)
        invariant sock.sent == old(sock.sent) + Frames(Reports(client.pid, sizes))
        invariant ClientDecode(input) == (handled + ClientDecode(sock.incoming).0, ClientDecode(sock.incoming).1)
        decreases |sock.incoming|
      {
        assert handled + [] == handled;
        var msg := ReadMessage(sock);
        if msg.Failure? {
          client.connected := msg.error.Threw?;
          return Some(msg.error), HeardOut(before, estimatedEntryBytes, client.pid, input, handled, msg.error);
        }
        SnocAssoc(handled, msg.value, ClientDecode(sock.incoming).0);
        TakeSnoc(before, estimatedEntryBytes, handled, msg.value);
        ghost var report := Take(cache.Model(), estimatedEntryBytes, msg.value).1;
        ghost var sent := ProcessMessage(msg.value);
        handled := handled + [msg.value];
        if !client.connected {
          assert !sent;
          LostReport(before, estimatedEntryBytes, client.pid, handled, old(sock.sent), sock.sent);
          return None, HeardLost(before, estimatedEntryBytes, client.pid, input, handled, sock.sent[|old(sock.sent)|..]);
        }
        if report.Some? {
          ReportsSnoc(client.pid, sizes, report.value);
          sizes := sizes + [report.value];
        }
      }
    }

    // reconnect over sock, and listen
    method ListenOn(sock: Socket) returns (ending: Option<Ending>, ghost talk: Talk)
      requires Valid() && !client.connected
      modifies cache, cache.list, client`connected, client`sock, sock`sent, sock`incoming
      ensures Valid() && client.sock == sock && cache.list <= old(cache.list)
      ensures Heard(old(cache.Model()), estimatedEntryBytes, client.pid, old(sock.incoming), talk)
      ensures cache.Model() == TakeAll(old(cache.Model()), estimatedEntryBytes, talk.handled).0
      ensures sock.sent == old(sock.sent) + talk.sent
      ensures ending == talk.ending && (client.connected <==> Throws(talk))
    {
      hide LRUCache.Valid, Heard, TakeAll;
      client.sock := sock;
      var ok := client.Connect(true);
      ending, talk := Listen();
    }

    // listener_loop over its successive connections, each made as soon as the one before is lost: what
    // is written is on each what hearing it makes the client report, and no registration.
    method ListenThrough(socks: seq<Socket>) returns (ghost talks: seq<Talk>)
      requires Valid() && !client.connected && forall i, j :: 0 <= i < j < |socks| ==> socks[i] != socks[j]
      modifies cache, cache.list, client`connected, client`sock, socks
      ensures Valid() && cache.list <= old(cache.list)
      ensures HeardThrough(old(cache.Model()), estimatedEntryBytes, client.pid, old(Streams(socks)), talks)
      ensures cache.Model() == CacheAfter(old(cache.Model()), estimatedEntryBytes, talks)
      ensures |talks| <= |socks|
      ensures forall i :: 0 <= i < |talks| ==> socks[i].sent == old(socks[i].sent) + talks[i].sent
      ensures forall i :: |talks| <= i < |socks| ==> socks[i].sent == old(socks[i].sent)
    {
      hide LRUCache.Valid, LRUCache.Model, Heard, TakeAll, HeardAll, CacheAfter;
      ghost var before, streams := cache.Model(), Streams(socks);
      talks := [];
      HeardNone(before, estimatedEntryBytes, client.pid, streams);
      for i := 0 to |socks|
        invariant Valid() && !client.connected && cache.list <= old(cache.list) && |talks| == i
        invariant HeardAll(before, estimatedEntryBytes, client.pid, streams, talks)
        invariant forall j :: 0 <= j < i ==> !Throws(talks[j])
        invariant cache.Model() == CacheAfter(before, estimatedEntryBytes, talks)
        invariant forall j :: i <= j < |socks| ==> socks[j].incoming == streams[j] && socks[j].sent == old(socks[j].sent)
        invariant forall j :: 0 <= j < i ==> socks[j].sent == old(socks[j].sent) + talks[j].sent
      {
        assert forall j :: 0 <= j < |socks| && j != i ==> socks[j] != socks[i];
        var ending, talk := ListenOn(socks[i]);
        HeardNext(before, estimatedEntryBytes, client.pid, streams, talks, talk);
        talks := talks + [talk];
        if ending.Some? && ending.value.Threw? { return; }
      }
    }
  }

  ghost function Streams(socks: seq<Socket>): (ss: seq<seq<Byte>>)
    reads socks
    ensures |ss| == |socks| && forall i :: 0 <= i < |socks| ==> ss[i] == socks[i].incoming
  {
    seq(|socks|, i requires 0 <= i < |socks| reads socks => socks[i].incoming)
  }

  lemma SizeIsLength(cache: LRUCache<string, string>)
    requires cache.Valid()
    ensures cache.size == |cache.items|
  {
  }
}
