// What the daemon has on record about a client, in any run at all: the size the client had when it
// last said anything.
module Accuracy {
  import opened Wrappers
  import opened Policy
  import opened Daemon
  import opened Transport
  import opened GovernedModel
  import opened Registry
  import opened ClosedLoop
  import Protocol
  import Lru = LruModel

  // The bytes the client's entries took when it registered, or when a command last changed its
  // capacity; 0 if neither has happened.
  ghost function Said(cfg: seq<TierConfig>, ms: seq<Move>, fd: Fd): nat
    requires |cfg| > 0 && FractionsOk(cfg)
  {
    if |ms| == 0 then 0
    else
      var n := |ms| - 1;
      SaidNow(cfg, After(cfg, Start, ms[..n]), ms[n], fd, Said(cfg, ms[..n], fd))
  }

  ghost function SaidNow(cfg: seq<TierConfig>, w: World, m: Move, fd: Fd, said: nat): nat
    requires FractionsOk(cfg) && w.engine.tier < |cfg|
  {
    var r := Next(cfg, w, m);
    if fd !in r.links then said
    else if fd !in w.links then if m.Join? && m.registers then |m.cache.items| * m.entryBytes else 0
    else if r.links[fd].cache.capacity != w.links[fd].cache.capacity then |r.links[fd].cache.items| * r.links[fd].entryBytes
    else said
  }

  // The last size on its way to the daemon, or the one it has on record.
  ghost function Latest(onRecord: nat, up: seq<Message>): nat {
    if |up| == 0 then onRecord else up[|up| - 1].currentSizeBytes
  }

  ghost predicate Speaks(m: Message) {
    m.kind == Protocol.REGISTER || m.kind == Protocol.REPORT_SIZE
  }

  ghost predicate Recorded(w: World, fd: Fd, said: nat) {
    fd in w.links ==>
      && fd in w.table && (forall m :: m in w.links[fd].up ==> Speaks(m))
      && Latest(w.table[fd].currentSizeBytes, w.links[fd].up) == said
  }

  lemma CapacityTells(l: Link)
    requires |l.down| > 0
    ensures var l' := Handled(l);
            if l'.cache.capacity == l.cache.capacity then l'.cache == l.cache && l'.up == l.up
            else
              && |l'.up| == |l.up| + 1 && l'.up[..|l.up|] == l.up && Speaks(l'.up[|l.up|])
              && l'.up[|l.up|].currentSizeBytes == |l'.cache.items| * l.entryBytes
  {
    var command := CommandOf(l.down[0]);
    if command.Some? { HandleReports(l.cache, l.entryBytes, command.value); }
  }

  lemma DownRecords(cfg: seq<TierConfig>, w: World, fd: Fd, said: nat)
    requires FractionsOk(cfg) && w.engine.tier < |cfg| && Recorded(w, fd, said) && fd in w.links && |w.links[fd].down| > 0
    ensures Recorded(Next(cfg, w, DeliverDown(fd)), fd, SaidNow(cfg, w, DeliverDown(fd), fd, said))
  {
    var l := w.links[fd];
    CapacityTells(l);
    HandledKeepsEntryBytes(l);
    var l' := Handled(l);
    if l'.up != l.up { assert l'.up == l.up + [l'.up[|l.up|]]; }
    hide Handled, Speaks;
  }

  lemma HandledKeepsEntryBytes(l: Link)
    requires |l.down| > 0
    ensures Handled(l).entryBytes == l.entryBytes
  {
  }

  lemma UpRecords(cfg: seq<TierConfig>, w: World, fd: Fd, said: nat)
    requires FractionsOk(cfg) && w.engine.tier < |cfg| && Recorded(w, fd, said) && fd in w.links && |w.links[fd].up| > 0
    ensures Recorded(Next(cfg, w, DeliverUp(fd)), fd, said)
  {
    var up := w.links[fd].up;
    assert up[0] in up;
    assert forall m :: m in up[1..] ==> m in up;
  }

  lemma NextRecords(cfg: seq<TierConfig>, w: World, m: Move, fd: Fd, said: nat)
    requires FractionsOk(cfg) && w.engine.tier < |cfg| && Recorded(w, fd, said)
    ensures Recorded(Next(cfg, w, m), fd, SaidNow(cfg, w, m, fd, said))
  {
    hide Step, TargetMessage, Take;
    match m
    case Poll(x) =>
    case Join(_, _, _, _, _) =>
    case DeliverDown(other) =>
      if other == fd && fd in w.links && |w.links[fd].down| > 0 { DownRecords(cfg, w, fd, said); }
    case DeliverUp(other) =>
      if other == fd && fd in w.links && |w.links[fd].up| > 0 { UpRecords(cfg, w, fd, said); }
    case Use(other, op) =>
  }

  lemma {:induction false} RunRecords(cfg: seq<TierConfig>, ms: seq<Move>, fd: Fd)
    requires |cfg| > 0 && FractionsOk(cfg)
    ensures Recorded(After(cfg, Start, ms), fd, Said(cfg, ms, fd))
  {
    if |ms| > 0 {
      hide Recorded, Next, SaidNow;
      var n := |ms| - 1;
      RunRecords(cfg, ms[..n], fd);
      NextRecords(cfg, After(cfg, Start, ms[..n]), ms[n], fd, Said(cfg, ms[..n], fd));
    } else {
      assert After(cfg, Start, ms) == Start;
    }
  }

  // Main result, with no hypothesis on the order of the moves: with nothing on its way up, the size on
  // record is exactly that.
  lemma {:induction false} RecordIsSaid(cfg: seq<TierConfig>, ms: seq<Move>, fd: Fd)
    requires |cfg| > 0 && FractionsOk(cfg) && fd in After(cfg, Start, ms).links && After(cfg, Start, ms).links[fd].up == []
    ensures var w := After(cfg, Start, ms);
            fd in w.table && w.table[fd].currentSizeBytes == Said(cfg, ms, fd)
  {
    hide After, Said;
    RunRecords(cfg, ms, fd);
  }

  // One command that applies, and its report: the record is the size of the entries left.
  lemma ReportArrives(cfg: seq<TierConfig>, w: World, fd: Fd)
    requires FractionsOk(cfg) && w.engine.tier < |cfg| && fd in w.links && fd in w.table
    requires var l := w.links[fd]; |l.up| == 0 && |l.down| > 0
    requires Next(cfg, w, DeliverDown(fd)).links[fd].cache.capacity != w.links[fd].cache.capacity
    ensures var r := Next(cfg, Next(cfg, w, DeliverDown(fd)), DeliverUp(fd));
            && fd in r.links && fd in r.table && |r.links[fd].up| == 0
            && r.table[fd].currentSizeBytes == |r.links[fd].cache.items| * r.links[fd].entryBytes
  {
    CapacityTells(w.links[fd]);
    HandledKeepsEntryBytes(w.links[fd]);
    hide Handled;
  }
}
