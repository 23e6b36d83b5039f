/** The per-symbol state of a capture and of a replay as objects, changed message by message; each
    method is proved to compute the corresponding function of module Capture. */
module CaptureObjects {
  import opened MarketTypes
  import opened Books
  import opened Sessions
  import opened Capture

  lemma DiffRowsSnoc(applied: seq<AppliedDiff>, i: nat, from: nat, id: int)
    requires i < |applied|
    ensures DiffRows(applied[..i + 1], from, id) ==
            DiffRows(applied[..i], from, id) + [DiffRow(applied[i], from + i + 1, id)]
  {
  }

  class LiveBook {
    const cfg: Settings
    const symbol: string
    const session: BookSession
    var obSeq: nat
    var lastEpoch: Uint64
    var rows: seq<ObRow>

    ghost function Repr(): set<object> {
      {this} + session.Repr()
    }

    ghost predicate Valid()
      reads Repr()
    {
      && this !in session.Repr() && session.Valid()
      && session.venue == cfg.venue && session.book.id == cfg.idOf(symbol)
    }

    function State(): LiveSymbol
      requires Valid()
      reads Repr()
    {
      LiveSymbol(session.State(), obSeq, lastEpoch)
    }

    constructor (cfg: Settings, symbol: string)
      ensures Valid() && fresh(Repr())
      ensures this.cfg == cfg && this.symbol == symbol
      ensures State() == NewLive(cfg.venue) && rows == []
    {
      this.cfg := cfg;
      this.symbol := symbol;
      session := new BookSession(cfg.idOf(symbol), cfg.venue);
      obSeq, lastEpoch, rows := 0, UINT64_MAX, [];
    }

    /** Writes one row per diff applied while a snapshot was bridged. */
    method WriteApplied(applied: seq<AppliedDiff>)
      requires Valid()
      modifies this`obSeq, this`rows
      ensures Valid()
      ensures rows == old(rows) + DiffRows(applied, old(obSeq), cfg.idOf(symbol))
      ensures State() == old(State()).(obSeq := old(obSeq) + |applied|)
    {
      for i := 0 to |applied|
        invariant Valid()
        invariant obSeq == old(obSeq) + i
        invariant rows == old(rows) + DiffRows(applied[..i], old(obSeq), cfg.idOf(symbol))
      {
        obSeq := obSeq + 1;
        rows := rows + [DiffRow(applied[i], obSeq, cfg.idOf(symbol))];
        DiffRowsSnoc(applied, i, old(obSeq), cfg.idOf(symbol));
      }
      assert applied[..|applied|] == applied;
    }

    method Resync(f: Frame) returns (snap: Option<SnapRecord>, failed: bool)
      requires Valid() && f.symbol == symbol
      modifies Repr()
      ensures Valid()
      ensures var t := LiveResync(cfg, old(State()), f);
        State() == t.state && rows == old(rows) + t.rows && t.snap == snap && t.failed == failed
    {
      var got := FetchSnapshot(cfg, f.rest);
      if got.None? {
        return None, true;
      }
      var applied := session.Seed(got.value.bids, got.value.asks, got.value.lastUpdateId);
      WriteApplied(applied);
      return Some(SnapRecord(f.rest.value.at, f.symbol, got.value.lastUpdateId, f.rest.value.body)), false;
    }

    /** Fail closed: no row from an unseeded or waiting book. */
    method Emit(ts: Timestamp, kind: char)
      requires Valid()
      modifies this`obSeq, this`rows
      ensures Valid()
      ensures var t := LiveEmit(cfg, old(State()), ts, symbol, kind);
        State() == t.state && rows == old(rows) + t.rows && t.snap == None && t.failed == false
      ensures session.book.initialized && !session.pending ==>
        && |rows| == |old(rows)| + 1 && rows[|old(rows)|].ts == ts && rows[|old(rows)|].kind == kind
        && ShowsBestFive(rows[|old(rows)|].top, session.book.bids.levels, session.book.asks.levels)
      ensures !session.book.initialized || session.pending ==> rows == old(rows)
    {
      if !session.book.initialized || session.pending {
        return;
      }
      obSeq := obSeq + 1;
      var top := session.book.FillTop5(FreshTop());
      rows := rows + [ObRow(ts, obSeq, session.book.id, kind, 'N', top)];
    }

    method HandleDiff(f: Frame, ev: DepthEvent) returns (snap: Option<SnapRecord>, failed: bool)
      requires Valid() && f.symbol == symbol
      modifies Repr()
      ensures Valid()
      ensures var t := LiveDiff(cfg, old(State()), f, ev);
        State() == t.state && rows == old(rows) + t.rows && t.snap == snap && t.failed == failed
    {
      snap, failed := None, false;
      var o := session.Feed(ev);
      if o == Outcome.Applied {
        Emit(ev.appliedTime, 'D');
      } else if o == ResyncNeeded || (o == Buffered && session.pending) {
        snap, failed := Resync(f);
      }
    }

    method Handle(f: Frame) returns (snap: Option<SnapRecord>, failed: bool)
      requires Valid() && f.symbol == symbol
      modifies Repr()
      ensures Valid()
      ensures var t := LiveHandle(cfg, old(State()), f);
        State() == t.state && rows == old(rows) + t.rows && t.snap == snap && t.failed == failed
    {
      snap, failed := None, false;
      var parsed := if f.kind == Trade then None else cfg.parse(f.data);
      var ts := LiveStamp(cfg, f);
      if f.kind != Trade && parsed.None? {
        return;
      }
      if lastEpoch != f.epoch {
        if lastEpoch != UINT64_MAX {
          session.Invalidate();
        }
        lastEpoch := f.epoch;
      }
      if f.kind == DepthDiff {
        snap, failed := HandleDiff(f, parsed.value.(appliedTime := ts));
      } else if f.kind == Depth5 {
        obSeq := obSeq + 1;
        rows := rows + [PartialRow(parsed.value, ts, obSeq, session.book.id)];
      } else if cfg.trades {
        Emit(ts, 'T');
      }
    }
  }

  class ReplayBook {
    const cfg: Settings
    const sidecar: bool
    const symbol: string
    const session: BookSession
    var seqNo: nat
    var epoch: Option<Uint64>
    var queue: seq<DepthEvent>
    var rows: seq<ObRow>

    ghost function Repr(): set<object> {
      {this} + session.Repr()
    }

    ghost predicate Valid()
      reads Repr()
    {
      && this !in session.Repr() && session.Valid()
      && session.venue == cfg.venue && session.book.id == cfg.idOf(symbol)
    }

    function State(): ReplaySymbol
      requires Valid()
      reads Repr()
    {
      ReplaySymbol(session.State(), seqNo, epoch)
    }

    constructor (cfg: Settings, sidecar: bool, symbol: string, snaps: seq<DepthEvent>)
      ensures Valid() && fresh(Repr())
      ensures this.cfg == cfg && this.sidecar == sidecar && this.symbol == symbol
      ensures State() == NewReplay(cfg.venue) && rows == [] && queue == snaps
    {
      this.cfg := cfg;
      this.sidecar := sidecar;
      this.symbol := symbol;
      session := new BookSession(cfg.idOf(symbol), cfg.venue);
      seqNo, epoch, queue, rows := 0, None, snaps, [];
    }

    method WriteApplied(applied: seq<AppliedDiff>)
      requires Valid()
      modifies this`seqNo, this`rows
      ensures Valid()
      ensures rows == old(rows) + DiffRows(applied, old(seqNo), cfg.idOf(symbol))
      ensures State() == old(State()).(seqNo := old(seqNo) + |applied|)
    {
      for i := 0 to |applied|
        invariant Valid()
        invariant seqNo == old(seqNo) + i
        invariant rows == old(rows) + DiffRows(applied[..i], old(seqNo), cfg.idOf(symbol))
      {
        seqNo := seqNo + 1;
        rows := rows + [DiffRow(applied[i], seqNo, cfg.idOf(symbol))];
        DiffRowsSnoc(applied, i, old(seqNo), cfg.idOf(symbol));
      }
      assert applied[..|applied|] == applied;
    }

    method Seed(snap: DepthEvent)
      requires Valid()
      modifies Repr()
      ensures Valid() && queue == old(queue)
      ensures var t := ReplaySeed(cfg, old(State()), snap, queue, symbol);
        State() == t.state && queue == t.queue && rows == old(rows) + t.rows
    {
      var applied := session.Seed(snap.bids, snap.asks, snap.lastUpdateId);
      WriteApplied(applied);
    }

    /** Seeds from the next recorded snapshot; false when none is left or the book stays waiting. */
    method SeedFromSidecar() returns (ready: bool)
      requires Valid()
      modifies Repr()
      ensures Valid()
      ensures old(queue) == [] ==> State() == old(State()) && queue == [] && rows == old(rows) && !ready
      ensures old(queue) != [] ==>
        && queue == old(queue)[1..]
        && ready == Ready(State().session)
        && var t := ReplaySeed(cfg, old(State()), old(queue)[0], queue, symbol);
           State() == t.state && rows == old(rows) + t.rows
    {
      if queue == [] {
        return false;
      }
      var snap := queue[0];
      queue := queue[1..];
      Seed(snap);
      return session.book.initialized && !session.pending;
    }

    method Emit(l: ReplayLine, kind: char)
      requires Valid() && l.symbol == symbol
      modifies this`seqNo, this`rows
      ensures Valid()
      ensures var t := ReplayEmit(cfg, old(State()), queue, l, kind);
        State() == t.state && queue == t.queue && rows == old(rows) + t.rows
      ensures session.book.initialized && !session.pending ==>
        && |rows| == |old(rows)| + 1 && rows[|old(rows)|].ts == l.ts && rows[|old(rows)|].kind == kind
        && ShowsBestFive(rows[|old(rows)|].top, session.book.bids.levels, session.book.asks.levels)
      ensures !session.book.initialized || session.pending ==> rows == old(rows)
    {
      if !session.book.initialized || session.pending {
        return;
      }
      seqNo := seqNo + 1;
      var top := session.book.FillTop5(FreshTop());
      rows := rows + [ObRow(l.ts, seqNo, session.book.id, kind, 'N', top)];
    }

    method HandleDiff(l: ReplayLine, ev: DepthEvent)
      requires Valid() && l.symbol == symbol && ev.appliedTime == l.ts
      modifies Repr()
      ensures Valid()
      ensures var t := ReplayDiff(cfg, old(State()), old(queue), l, ev);
        State() == t.state && queue == t.queue && rows == old(rows) + t.rows
    {
      var o := session.Feed(ev);
      if o == Outcome.Applied {
        Emit(l, 'D');
      } else if o == ResyncNeeded || (o == Buffered && session.pending) {
        var _ := SeedFromSidecar();
      }
    }

    method WritePartial(l: ReplayLine, ev: DepthEvent)
      requires Valid()
      modifies this`seqNo, this`rows
      ensures Valid()
      ensures State() == old(State()).(seqNo := old(seqNo) + 1)
      ensures rows == old(rows) + [PartialRow(ev, l.ts, old(seqNo) + 1, session.book.id)]
    {
      seqNo := seqNo + 1;
      rows := rows + [PartialRow(ev, l.ts, seqNo, session.book.id)];
    }

    method HandlePartial(l: ReplayLine, ev: DepthEvent)
      requires Valid() && l.symbol == symbol
      modifies Repr()
      ensures Valid()
      ensures var t := ReplayPartial(cfg, sidecar, old(State()), old(queue), l, ev);
        State() == t.state && queue == t.queue && rows == old(rows) + t.rows
    {
      ghost var seeded: seq<ObRow> := [];
      if !sidecar {
        seeded := ReplaySeed(cfg, State(), ev, queue, symbol).rows;
        Seed(ev);
      }
      assert rows == old(rows) + seeded;
      Assoc(old(rows), seeded, [PartialRow(ev, l.ts, seqNo + 1, session.book.id)]);
      WritePartial(l, ev);
    }

    method Handle(l: ReplayLine)
      requires Valid() && l.symbol == symbol
      modifies Repr()
      ensures Valid()
      ensures var t := ReplayHandle(cfg, sidecar, old(State()), old(queue), l);
        State() == t.state && queue == t.queue && rows == old(rows) + t.rows
    {
      if epoch.None? {
        epoch := Some(l.epoch);
      } else if epoch.value != l.epoch {
        session.Invalidate();
        epoch := Some(l.epoch);
      }
      if l.kind == "depth_diff" {
        var p := cfg.parse(l.payload);
        if p.Some? {
          HandleDiff(l, p.value.(appliedTime := l.ts));
        }
      } else if l.kind == "depth5" {
        var p := cfg.parse(l.payload);
        if p.Some? {
          HandlePartial(l, p.value.(appliedTime := l.ts));
        }
      } else if l.kind == "trade" && cfg.trades {
        Emit(l, 'T');
      }
    }
  }
}
