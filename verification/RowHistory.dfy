/** What the order-book rows of one symbol say about a whole capture or a whole replay: each program
    writes, for each symbol, exactly what the script of its messages writes. So rows are numbered
    without gaps, diff rows are the applied diffs, and rows show the exchange's book. */
module RowHistory {
  import opened MarketTypes
  import opened Csv
  import opened Books
  import opened Sessions
  import opened Exchange
  import opened Capture
  import opened LogReplay
  import opened LogFiles
  import opened RowMachine
  import opened RowLaws

  /** From desk `d` the script leads to session `t` and writes `rows`. */
  ghost predicate Wrote(d: Desk, id: int, acts: seq<Act>, t: Session, rows: seq<ObRow>) {
    Play(d, id, acts) == Desk(t, d.rows + rows)
  }

  lemma WroteNothing(d: Desk, id: int)
    ensures Wrote(d, id, [], d.session, [])
  {
    assert d.rows + [] == d.rows;
  }

  lemma WroteOne(d: Desk, id: int, act: Act)
    ensures Wrote(d, id, [act], Moved(d.session, act), ActRows(d.session, AppliedBy(d.session, act), |d.rows|, id, act))
  {
    PlayOne(d, id, act);
  }

  lemma WroteBoth(
      d: Desk, id: int, a: seq<Act>, b: seq<Act>, mid: Session, rows: seq<ObRow>, t: Session, more: seq<ObRow>)
    requires Wrote(d, id, a, mid, rows) && Wrote(Desk(mid, d.rows + rows), id, b, t, more)
    ensures Wrote(d, id, a + b, t, rows + more)
  {
    PlayConcat(d, id, a, b);
    Assoc(d.rows, rows, more);
  }

  /** A script that goes on after acts which wrote nothing. */
  lemma WroteAfterSilence(d: Desk, id: int, a: seq<Act>, b: seq<Act>, mid: Session, t: Session, rows: seq<ObRow>)
    requires Wrote(d, id, a, mid, []) && Wrote(Desk(mid, d.rows), id, b, t, rows)
    ensures Wrote(d, id, a + b, t, rows)
  {
    assert d.rows + [] == d.rows && [] + rows == rows;
    WroteBoth(d, id, a, b, mid, [], t, rows);
  }

  // ---- A diff, and the snapshot it may ask for ----

  function SnapshotOp(snap: DepthEvent): Op {
    Snapshot(snap.bids, snap.asks, snap.lastUpdateId)
  }

  lemma OpWrote(d: Desk, id: int, op: Op)
    ensures Wrote(d, id, [Do(op)], Perform(d.session, op).session,
                  DiffRows(Perform(d.session, op).applied, |d.rows|, id))
  {
    WroteOne(d, id, Do(op));
  }

  ghost predicate TakesSnapshot(s: Session, ev: DepthEvent, snap: Option<DepthEvent>) {
    snap.Some? && WantsSnapshot(OnDiff(s, ev).session, DiffOutcome(s, ev))
  }

  /** A diff and, when it makes the session ask for a snapshot and there is one, the snapshot. */
  ghost function DiffScript(s: Session, ev: DepthEvent, snap: Option<DepthEvent>): seq<Act> {
    [Do(Diff(ev))] + if TakesSnapshot(s, ev, snap) then [Do(SnapshotOp(snap.value))] else []
  }

  /** The session after a diff and the snapshot taken for it, and the diffs applied by either. */
  ghost function DiffTurn(s: Session, ev: DepthEvent, snap: Option<DepthEvent>): Step {
    if TakesSnapshot(s, ev, snap) then Perform(OnDiff(s, ev).session, SnapshotOp(snap.value)) else OnDiff(s, ev)
  }

  lemma OnlyAppliedReports(s: Session, ev: DepthEvent)
    ensures DiffOutcome(s, ev) != Outcome.Applied ==> OnDiff(s, ev).applied == []
    ensures DiffOutcome(s, ev) == Outcome.Applied ==> |OnDiff(s, ev).applied| == 1
  {
  }

  lemma DiffWrote(d: Desk, id: int, ev: DepthEvent, snap: Option<DepthEvent>)
    ensures var r := DiffTurn(d.session, ev, snap);
      Wrote(d, id, DiffScript(d.session, ev, snap), r.session, DiffRows(r.applied, |d.rows|, id))
  {
    var s, mid := d.session, OnDiff(d.session, ev).session;
    OpWrote(d, id, Diff(ev));
    if TakesSnapshot(s, ev, snap) {
      var op := SnapshotOp(snap.value);
      OnlyAppliedReports(s, ev);
      assert DiffRows([], |d.rows|, id) == [];
      OpWrote(Desk(mid, d.rows), id, op);
      WroteAfterSilence(d, id, [Do(Diff(ev))], [Do(op)], mid, Perform(mid, op).session,
                        DiffRows(Perform(mid, op).applied, |d.rows|, id));
    } else {
      assert [Do(Diff(ev))] + [] == [Do(Diff(ev))];
    }
  }

  /** An applied diff leaves the book ready, so its row is never suppressed, and it takes no
      snapshot. */
  lemma AppliedIsReady(s: Session, ev: DepthEvent, snap: Option<DepthEvent>)
    requires SessionInv(s) && DiffOutcome(s, ev) == Outcome.Applied
    ensures var r := DiffTurn(s, ev, snap); r == OnDiff(s, ev) && Ready(r.session)
  {
    DiffStepKeepsInv(s, ev);
  }

  lemma AppliedRow(s: Session, n: nat, id: int, ev: DepthEvent)
    requires DiffOutcome(s, ev) == Outcome.Applied
    ensures DiffRows(OnDiff(s, ev).applied, n, id) ==
            [BookRow(OnDiff(s, ev).session.book, ev.appliedTime, n + 1, id, 'D')]
  {
    var applied := OnDiff(s, ev).applied;
    assert |applied| == 1 && DiffRows(applied, n, id)[0] == DiffRow(applied[0], n + 1, id);
  }

  // ---- Live: one message ----

  function LiveEpochScript(st: LiveSymbol, epoch: Uint64): seq<Act> {
    if st.lastEpoch != epoch && st.lastEpoch != UINT64_MAX then [Do(Reconnect)] else []
  }

  /** A message that has passed the parser and the epoch check. */
  ghost function LiveKindScript(cfg: Settings, s: Session, f: Frame): seq<Act>
    requires !ParseFails(cfg, f.kind, f.data)
  {
    match f.kind
    case DepthDiff =>
      DiffScript(s, cfg.parse(f.data).value.(appliedTime := LiveStamp(cfg, f)), FetchSnapshot(cfg, f.rest))
    case Depth5 => [ShowPartial(cfg.parse(f.data).value, LiveStamp(cfg, f))]
    case Trade => if cfg.trades then [ShowBook(LiveStamp(cfg, f))] else []
  }

  ghost function LiveTurnScript(cfg: Settings, st: LiveSymbol, f: Frame): seq<Act> {
    if ParseFails(cfg, f.kind, f.data) then []
    else LiveEpochScript(st, f.epoch) + LiveKindScript(cfg, LiveEpoch(st, f.epoch).session, f)
  }

  /** The desk is where live is. */
  predicate LiveAt(d: Desk, st: LiveSymbol) {
    d.session == st.session && |d.rows| == st.obSeq
  }

  lemma LiveDiffIs(cfg: Settings, st: LiveSymbol, f: Frame, ev: DepthEvent)
    requires SessionInv(st.session)
    ensures var t, r := LiveDiff(cfg, st, f, ev), DiffTurn(st.session, ev, FetchSnapshot(cfg, f.rest));
      && t.state.session == r.session && t.state.obSeq == st.obSeq + |t.rows|
      && t.rows == DiffRows(r.applied, st.obSeq, cfg.idOf(f.symbol))
  {
    if DiffOutcome(st.session, ev) == Outcome.Applied {
      AppliedIsReady(st.session, ev, FetchSnapshot(cfg, f.rest));
      AppliedRow(st.session, st.obSeq, cfg.idOf(f.symbol), ev);
    } else {
      LiveDiffResyncs(cfg, st, f, ev);
    }
  }

  lemma LiveDiffResyncs(cfg: Settings, st: LiveSymbol, f: Frame, ev: DepthEvent)
    requires DiffOutcome(st.session, ev) != Outcome.Applied
    ensures var t, r := LiveDiff(cfg, st, f, ev), DiffTurn(st.session, ev, FetchSnapshot(cfg, f.rest));
      && t.state.session == r.session && t.state.obSeq == st.obSeq + |t.rows|
      && t.rows == DiffRows(r.applied, st.obSeq, cfg.idOf(f.symbol))
  {
    OnlyAppliedReports(st.session, ev);
  }

  lemma LiveKindWrote(cfg: Settings, d: Desk, st: LiveSymbol, f: Frame)
    requires LiveAt(d, st) && SessionInv(st.session) && !ParseFails(cfg, f.kind, f.data) && st.lastEpoch == f.epoch
    ensures var t := LiveHandle(cfg, st, f);
      && Wrote(d, cfg.idOf(f.symbol), LiveKindScript(cfg, st.session, f), t.state.session, t.rows)
      && t.state.obSeq == st.obSeq + |t.rows|
  {
    var id := cfg.idOf(f.symbol);
    match f.kind {
      case DepthDiff =>
        var ev := cfg.parse(f.data).value.(appliedTime := LiveStamp(cfg, f));
        LiveDiffIs(cfg, st, f, ev);
        DiffWrote(d, id, ev, FetchSnapshot(cfg, f.rest));
      case Depth5 => WroteOne(d, id, ShowPartial(cfg.parse(f.data).value, LiveStamp(cfg, f)));
      case Trade =>
        WroteOne(d, id, ShowBook(LiveStamp(cfg, f)));
        WroteNothing(d, id);
    }
  }

  lemma LiveEpochWrote(cfg: Settings, d: Desk, id: int, st: LiveSymbol, epoch: Uint64)
    requires LiveAt(d, st)
    ensures Wrote(d, id, LiveEpochScript(st, epoch), LiveEpoch(st, epoch).session, [])
  {
    OpWrote(d, id, Reconnect);
    WroteNothing(d, id);
  }

  /** One message of the live capture does what its script does. */
  lemma LiveTurnWrote(cfg: Settings, d: Desk, st: LiveSymbol, f: Frame)
    requires LiveAt(d, st) && SessionInv(st.session)
    ensures var t := LiveHandle(cfg, st, f);
      && Wrote(d, cfg.idOf(f.symbol), LiveTurnScript(cfg, st, f), t.state.session, t.rows)
      && t.state.obSeq == st.obSeq + |t.rows|
  {
    var id := cfg.idOf(f.symbol);
    if ParseFails(cfg, f.kind, f.data) {
      WroteNothing(d, id);
    } else {
      var cur := LiveEpoch(st, f.epoch);
      EmptyBookInv();
      LiveEpochWrote(cfg, d, id, st, f.epoch);
      LiveKindWrote(cfg, Desk(cur.session, d.rows), cur, f);
      var t := LiveHandle(cfg, cur, f);
      assert LiveHandle(cfg, st, f) == t;
      WroteAfterSilence(d, id, LiveEpochScript(st, f.epoch), LiveKindScript(cfg, cur.session, f), cur.session,
                        t.state.session, t.rows);
    }
  }

  // ---- Replay: one line ----

  function Next(queue: seq<DepthEvent>): Option<DepthEvent> {
    if queue == [] then None else Some(queue[0])
  }

  function ReplayEpochScript(st: ReplaySymbol, epoch: Uint64): seq<Act> {
    if st.epoch.Some? && st.epoch.value != epoch then [Do(Reconnect)] else []
  }

  /** Without a sidecar a partial-depth message is also a snapshot. */
  function PartialScript(sidecar: bool, snap: DepthEvent, ts: Timestamp): seq<Act> {
    (if sidecar then [] else [Do(SnapshotOp(snap))]) + [ShowPartial(snap, ts)]
  }

  ghost function ReplayKindScript(
      cfg: Settings, sidecar: bool, s: Session, queue: seq<DepthEvent>, l: ReplayLine): seq<Act>
  {
    var p := cfg.parse(l.payload);
    if l.kind == "depth_diff" then
      if p.None? then [] else DiffScript(s, p.value.(appliedTime := l.ts), Next(queue))
    else if l.kind == "depth5" then
      if p.None? then [] else PartialScript(sidecar, p.value, l.ts)
    else if l.kind == "trade" && cfg.trades then [ShowBook(l.ts)]
    else []
  }

  ghost function ReplayTurnScript(
      cfg: Settings, sidecar: bool, st: ReplaySymbol, queue: seq<DepthEvent>, l: ReplayLine): seq<Act>
  {
    ReplayEpochScript(st, l.epoch) + ReplayKindScript(cfg, sidecar, ReplayEpoch(st, l.epoch).session, queue, l)
  }

  /** The desk is where replay is. */
  predicate ReplayAt(d: Desk, st: ReplaySymbol) {
    d.session == st.session && |d.rows| == st.seqNo
  }

  lemma ReplayDiffIs(cfg: Settings, st: ReplaySymbol, queue: seq<DepthEvent>, l: ReplayLine, ev: DepthEvent)
    requires SessionInv(st.session) && ev.appliedTime == l.ts
    ensures var t, r := ReplayDiff(cfg, st, queue, l, ev), DiffTurn(st.session, ev, Next(queue));
      && t.state.session == r.session && t.state.seqNo == st.seqNo + |t.rows|
      && t.rows == DiffRows(r.applied, st.seqNo, cfg.idOf(l.symbol))
  {
    if DiffOutcome(st.session, ev) == Outcome.Applied {
      AppliedIsReady(st.session, ev, Next(queue));
      AppliedRow(st.session, st.seqNo, cfg.idOf(l.symbol), ev);
    } else {
      ReplayDiffResyncs(cfg, st, queue, l, ev);
    }
  }

  lemma ReplayDiffResyncs(cfg: Settings, st: ReplaySymbol, queue: seq<DepthEvent>, l: ReplayLine, ev: DepthEvent)
    requires DiffOutcome(st.session, ev) != Outcome.Applied
    ensures var t, r := ReplayDiff(cfg, st, queue, l, ev), DiffTurn(st.session, ev, Next(queue));
      && t.state.session == r.session && t.state.seqNo == st.seqNo + |t.rows|
      && t.rows == DiffRows(r.applied, st.seqNo, cfg.idOf(l.symbol))
  {
    OnlyAppliedReports(st.session, ev);
  }

  lemma SeedWrote(d: Desk, id: int, snap: DepthEvent, ts: Timestamp, r: Step)
    requires r == Perform(d.session, SnapshotOp(snap))
    ensures Wrote(d, id, PartialScript(false, snap, ts), r.session,
                  DiffRows(r.applied, |d.rows|, id) + [PartialRow(snap, ts, |d.rows| + |r.applied| + 1, id)])
  {
    OpWrote(d, id, SnapshotOp(snap));
    SeedThenPartial(d, id, SnapshotOp(snap), snap, ts, r.session, r.applied);
  }

  lemma SeedThenPartial(
      d: Desk, id: int, op: Op, snap: DepthEvent, ts: Timestamp, mid: Session, applied: seq<AppliedDiff>)
    requires Wrote(d, id, [Do(op)], mid, DiffRows(applied, |d.rows|, id))
    ensures Wrote(d, id, [Do(op)] + [ShowPartial(snap, ts)], mid,
                  DiffRows(applied, |d.rows|, id) + [PartialRow(snap, ts, |d.rows| + |applied| + 1, id)])
  {
    ThenPartial(d, id, [Do(op)], snap, ts, mid, DiffRows(applied, |d.rows|, id));
  }

  lemma ThenPartial(d: Desk, id: int, a: seq<Act>, snap: DepthEvent, ts: Timestamp, mid: Session, rows: seq<ObRow>)
    requires Wrote(d, id, a, mid, rows)
    ensures Wrote(d, id, a + [ShowPartial(snap, ts)], mid, rows + [PartialRow(snap, ts, |d.rows| + |rows| + 1, id)])
  {
    WroteOne(Desk(mid, d.rows + rows), id, ShowPartial(snap, ts));
    WroteBoth(d, id, a, [ShowPartial(snap, ts)], mid, rows, mid, [PartialRow(snap, ts, |d.rows| + |rows| + 1, id)]);
  }

  lemma ReplaySeedsPartial(
      cfg: Settings, st: ReplaySymbol, queue: seq<DepthEvent>, l: ReplayLine, snap: DepthEvent, r: Step)
    requires r == Perform(st.session, SnapshotOp(snap))
    ensures var t := ReplayPartial(cfg, false, st, queue, l, snap.(appliedTime := l.ts));
            var k, id := st.seqNo + |r.applied|, cfg.idOf(l.symbol);
      && t.state.session == r.session && t.state.seqNo == k + 1
      && t.rows == DiffRows(r.applied, st.seqNo, id) + [PartialRow(snap, l.ts, k + 1, id)]
  {
  }

  lemma ReplayPartialWrote(
      cfg: Settings, d: Desk, sidecar: bool, st: ReplaySymbol, queue: seq<DepthEvent>, l: ReplayLine, snap: DepthEvent)
    requires ReplayAt(d, st)
    ensures var t := ReplayPartial(cfg, sidecar, st, queue, l, snap.(appliedTime := l.ts));
      && Wrote(d, cfg.idOf(l.symbol), PartialScript(sidecar, snap, l.ts), t.state.session, t.rows)
      && t.state.seqNo == st.seqNo + |t.rows|
  {
    if sidecar {
      AnchoredPartialWrote(cfg, d, st, queue, l, snap);
    } else {
      SeedingPartialWrote(cfg, d, st, queue, l, snap);
    }
  }

  lemma AnchoredPartialWrote(
      cfg: Settings, d: Desk, st: ReplaySymbol, queue: seq<DepthEvent>, l: ReplayLine, snap: DepthEvent)
    requires ReplayAt(d, st)
    ensures var t := ReplayPartial(cfg, true, st, queue, l, snap.(appliedTime := l.ts));
      && Wrote(d, cfg.idOf(l.symbol), PartialScript(true, snap, l.ts), t.state.session, t.rows)
      && t.state.seqNo == st.seqNo + |t.rows|
  {
    WroteOne(d, cfg.idOf(l.symbol), ShowPartial(snap, l.ts));
    assert PartialScript(true, snap, l.ts) == [ShowPartial(snap, l.ts)];
  }

  lemma SeedingPartialWrote(
      cfg: Settings, d: Desk, st: ReplaySymbol, queue: seq<DepthEvent>, l: ReplayLine, snap: DepthEvent)
    requires ReplayAt(d, st)
    ensures var t := ReplayPartial(cfg, false, st, queue, l, snap.(appliedTime := l.ts));
      && Wrote(d, cfg.idOf(l.symbol), PartialScript(false, snap, l.ts), t.state.session, t.rows)
      && t.state.seqNo == st.seqNo + |t.rows|
  {
    var r := Perform(st.session, SnapshotOp(snap));
    SeedWrote(d, cfg.idOf(l.symbol), snap, l.ts, r);
    ReplaySeedsPartial(cfg, st, queue, l, snap, r);
  }

  lemma ReplayEmitWrote(cfg: Settings, d: Desk, sidecar: bool, st: ReplaySymbol, queue: seq<DepthEvent>, l: ReplayLine)
    requires ReplayAt(d, st) && st.epoch == Some(l.epoch)
    requires l.kind == "depth_diff" || l.kind == "depth5" ==> cfg.parse(l.payload).None?
    ensures var t := ReplayHandle(cfg, sidecar, st, queue, l);
      && Wrote(d, cfg.idOf(l.symbol), ReplayKindScript(cfg, sidecar, st.session, queue, l), t.state.session, t.rows)
      && t.state.seqNo == st.seqNo + |t.rows|
  {
    WroteOne(d, cfg.idOf(l.symbol), ShowBook(l.ts));
    WroteNothing(d, cfg.idOf(l.symbol));
  }

  lemma ReplayKindWrote(cfg: Settings, d: Desk, sidecar: bool, st: ReplaySymbol, queue: seq<DepthEvent>, l: ReplayLine)
    requires ReplayAt(d, st) && SessionInv(st.session) && st.epoch == Some(l.epoch)
    ensures var t := ReplayHandle(cfg, sidecar, st, queue, l);
      && Wrote(d, cfg.idOf(l.symbol), ReplayKindScript(cfg, sidecar, st.session, queue, l), t.state.session, t.rows)
      && t.state.seqNo == st.seqNo + |t.rows|
  {
    var p := cfg.parse(l.payload);
    if l.kind == "depth_diff" && p.Some? {
      var ev := p.value.(appliedTime := l.ts);
      ReplayDiffIs(cfg, st, queue, l, ev);
      DiffWrote(d, cfg.idOf(l.symbol), ev, Next(queue));
    } else if l.kind == "depth5" && p.Some? {
      ReplayPartialWrote(cfg, d, sidecar, st, queue, l, p.value);
    } else {
      ReplayEmitWrote(cfg, d, sidecar, st, queue, l);
    }
  }

  lemma ReplayEpochWrote(d: Desk, id: int, st: ReplaySymbol, epoch: Uint64)
    requires ReplayAt(d, st)
    ensures Wrote(d, id, ReplayEpochScript(st, epoch), ReplayEpoch(st, epoch).session, [])
  {
    OpWrote(d, id, Reconnect);
    WroteNothing(d, id);
  }

  /** One line of a replay does what its script does, with or without a sidecar. */
  lemma ReplayTurnWrote(cfg: Settings, d: Desk, sidecar: bool, st: ReplaySymbol, queue: seq<DepthEvent>, l: ReplayLine)
    requires ReplayAt(d, st) && SessionInv(st.session)
    ensures var t := ReplayHandle(cfg, sidecar, st, queue, l);
      && Wrote(d, cfg.idOf(l.symbol), ReplayTurnScript(cfg, sidecar, st, queue, l), t.state.session, t.rows)
      && t.state.seqNo == st.seqNo + |t.rows|
  {
    var id, cur := cfg.idOf(l.symbol), ReplayEpoch(st, l.epoch);
    EmptyBookInv();
    ReplayEpochWrote(d, id, st, l.epoch);
    ReplayKindWrote(cfg, Desk(cur.session, d.rows), sidecar, cur, queue, l);
    var t := ReplayHandle(cfg, sidecar, cur, queue, l);
    assert ReplayHandle(cfg, sidecar, st, queue, l) == t;
    WroteAfterSilence(d, id, ReplayEpochScript(st, l.epoch), ReplayKindScript(cfg, sidecar, cur.session, queue, l),
                      cur.session, t.state.session, t.rows);
  }

  // ---- Whole runs, one symbol out of many ----

  function FramesOf(symbol: string, frames: seq<Frame>): seq<Frame> {
    if frames == [] then []
    else (if frames[0].symbol == symbol then [frames[0]] else []) + FramesOf(symbol, frames[1..])
  }

  /** The script of a symbol's messages. */
  ghost function LiveScript(cfg: Settings, st: LiveSymbol, frames: seq<Frame>): seq<Act>
    decreases |frames|
  {
    if frames == [] then []
    else LiveTurnScript(cfg, st, frames[0]) + LiveScript(cfg, LiveHandle(cfg, st, frames[0]).state, frames[1..])
  }

  lemma LiveScriptCons(cfg: Settings, st: LiveSymbol, f: Frame, rest: seq<Frame>)
    ensures LiveScript(cfg, st, [f] + rest) ==
            LiveTurnScript(cfg, st, f) + LiveScript(cfg, LiveHandle(cfg, st, f).state, rest)
  {
    assert ([f] + rest)[1..] == rest;
  }

  /** The rows of a symbol among the rows of all. */
  function RowsFor(symbol: string, rows: seq<TaggedRow>): seq<ObRow> {
    if rows == [] then []
    else (if rows[0].symbol == symbol then [rows[0].row] else []) + RowsFor(symbol, rows[1..])
  }

  lemma {:induction false} RowsForConcat(symbol: string, a: seq<TaggedRow>, b: seq<TaggedRow>)
    ensures RowsFor(symbol, a + b) == RowsFor(symbol, a) + RowsFor(symbol, b)
  {
    if a == [] {
      assert a + b == b;
    } else {
      var now := if a[0].symbol == symbol then [a[0].row] else [];
      assert (a + b)[0] == a[0] && (a + b)[1..] == a[1..] + b;
      RowsForConcat(symbol, a[1..], b);
      Assoc(now, RowsFor(symbol, a[1..]), RowsFor(symbol, b));
    }
  }

  lemma {:induction false} RowsForTagged(symbol: string, from: string, rows: seq<ObRow>)
    ensures RowsFor(symbol, Tag(from, rows)) == if from == symbol then rows else []
  {
    if rows != [] {
      assert Tag(from, rows)[1..] == Tag(from, rows[1..]);
      RowsForTagged(symbol, from, rows[1..]);
      assert rows == [rows[0]] + rows[1..];
    }
  }

  lemma RowsForFirst(symbol: string, from: string, rows: seq<ObRow>, rest: seq<TaggedRow>)
    ensures RowsFor(symbol, Tag(from, rows) + rest) ==
            if from == symbol then rows + RowsFor(symbol, rest) else RowsFor(symbol, rest)
  {
    assert [] + RowsFor(symbol, rest) == RowsFor(symbol, rest);
    RowsForConcat(symbol, Tag(from, rows), rest);
    RowsForTagged(symbol, from, rows);
  }

  lemma DeskKeepsInv(d: Desk, id: int, acts: seq<Act>)
    requires SessionInv(d.session)
    ensures SessionInv(Play(d, id, acts).session)
  {
    PlayRuns(d, id, acts);
    RunKeepsInv(d.session, OpsOf(acts));
  }

  /** From desk `d` the script of a symbol's own messages writes the symbol's rows of the capture. */
  ghost predicate LiveWrites(cfg: Settings, m: LiveMap, frames: seq<Frame>, symbol: string, d: Desk)
    requires symbol in m
  {
    Play(d, cfg.idOf(symbol), LiveScript(cfg, m[symbol], FramesOf(symbol, frames))).rows ==
    d.rows + RowsFor(symbol, LiveRun(cfg, m, frames).rows)
  }

  /** In a capture of many symbols each symbol's rows are those of the script of its own messages. */
  lemma {:induction false} LiveWritesScript(
      cfg: Settings, m: LiveMap, frames: seq<Frame>, symbol: string, d: Desk)
    requires symbol in m && LiveAt(d, m[symbol]) && SessionInv(d.session)
    ensures LiveWrites(cfg, m, frames, symbol, d)
    decreases |frames|
  {
    if frames == [] {
      assert d.rows + [] == d.rows;
    } else if frames[0].symbol == symbol {
      var f := frames[0];
      LiveFirst(cfg, m[symbol], f, FramesOf(symbol, frames[1..]), d);
      var d' := Play(d, cfg.idOf(symbol), LiveTurnScript(cfg, m[symbol], f));
      LiveWritesScript(cfg, After(cfg, m, f), frames[1..], symbol, d');
      LiveOwnMessage(cfg, m, frames, symbol, d, d');
    } else {
      LiveWritesScript(cfg, After(cfg, m, frames[0]), frames[1..], symbol, d);
      LiveOtherMessage(cfg, m, frames, symbol, d);
    }
  }

  lemma LiveRowsFirst(cfg: Settings, m: LiveMap, frames: seq<Frame>, symbol: string)
    requires frames != []
    ensures var f := frames[0];
            var later := RowsFor(symbol, LiveRun(cfg, After(cfg, m, f), frames[1..]).rows);
      RowsFor(symbol, LiveRun(cfg, m, frames).rows) == if f.symbol == symbol then RowsOf(cfg, m, f) + later else later
  {
    var f := frames[0];
    RowsOfFirst(cfg, m, frames);
    RowsForFirst(symbol, f.symbol, RowsOf(cfg, m, f), LiveRun(cfg, After(cfg, m, f), frames[1..]).rows);
  }

  lemma LiveOwnMessage(cfg: Settings, m: LiveMap, frames: seq<Frame>, symbol: string, d: Desk, d': Desk)
    requires frames != [] && frames[0].symbol == symbol && symbol in m
    requires var mine, id := FramesOf(symbol, frames[1..]), cfg.idOf(symbol);
             var t := LiveHandle(cfg, m[symbol], frames[0]);
      && d'.rows == d.rows + t.rows
      && Play(d, id, LiveScript(cfg, m[symbol], [frames[0]] + mine)) == Play(d', id, LiveScript(cfg, t.state, mine))
    requires LiveWrites(cfg, After(cfg, m, frames[0]), frames[1..], symbol, d')
    ensures LiveWrites(cfg, m, frames, symbol, d)
  {
    var later := RowsFor(symbol, LiveRun(cfg, After(cfg, m, frames[0]), frames[1..]).rows);
    LiveRowsFirst(cfg, m, frames, symbol);
    Assoc(d.rows, RowsOf(cfg, m, frames[0]), later);
  }

  lemma LiveOtherMessage(cfg: Settings, m: LiveMap, frames: seq<Frame>, symbol: string, d: Desk)
    requires frames != [] && frames[0].symbol != symbol && symbol in m
    requires LiveWrites(cfg, After(cfg, m, frames[0]), frames[1..], symbol, d)
    ensures LiveWrites(cfg, m, frames, symbol, d)
  {
    LiveRowsFirst(cfg, m, frames, symbol);
    OthersSkipped(symbol, frames);
    assert After(cfg, m, frames[0])[symbol] == m[symbol];
  }

  lemma OthersSkipped(symbol: string, frames: seq<Frame>)
    requires frames != [] && frames[0].symbol != symbol
    ensures FramesOf(symbol, frames) == FramesOf(symbol, frames[1..])
  {
  }

  lemma LiveFirst(cfg: Settings, st: LiveSymbol, f: Frame, rest: seq<Frame>, d: Desk)
    requires LiveAt(d, st) && SessionInv(d.session)
    ensures var id, t := cfg.idOf(f.symbol), LiveHandle(cfg, st, f);
            var d' := Play(d, id, LiveTurnScript(cfg, st, f));
      && LiveAt(d', t.state) && SessionInv(d'.session) && d'.rows == d.rows + t.rows
      && Play(d, id, LiveScript(cfg, st, [f] + rest)) == Play(d', id, LiveScript(cfg, t.state, rest))
  {
    var id, t := cfg.idOf(f.symbol), LiveHandle(cfg, st, f);
    LiveTurnWrote(cfg, d, st, f);
    DeskKeepsInv(d, id, LiveTurnScript(cfg, st, f));
    LiveScriptCons(cfg, st, f, rest);
    PlayConcat(d, id, LiveTurnScript(cfg, st, f), LiveScript(cfg, t.state, rest));
  }

  function LinesFor(symbol: string, lines: seq<ReplayLine>): seq<ReplayLine> {
    if lines == [] then []
    else (if lines[0].symbol == symbol then [lines[0]] else []) + LinesFor(symbol, lines[1..])
  }

  ghost function ReplayScript(
      cfg: Settings, sidecar: bool, st: ReplaySymbol, queue: seq<DepthEvent>, lines: seq<ReplayLine>): seq<Act>
    decreases |lines|
  {
    if lines == [] then []
    else
      var t := ReplayHandle(cfg, sidecar, st, queue, lines[0]);
      ReplayTurnScript(cfg, sidecar, st, queue, lines[0]) + ReplayScript(cfg, sidecar, t.state, t.queue, lines[1..])
  }

  lemma ReplayScriptCons(
      cfg: Settings, sidecar: bool, st: ReplaySymbol, queue: seq<DepthEvent>, l: ReplayLine, rest: seq<ReplayLine>)
    ensures var t := ReplayHandle(cfg, sidecar, st, queue, l);
      ReplayScript(cfg, sidecar, st, queue, [l] + rest) ==
      ReplayTurnScript(cfg, sidecar, st, queue, l) + ReplayScript(cfg, sidecar, t.state, t.queue, rest)
  {
    assert ([l] + rest)[1..] == rest;
  }

  lemma ReplayFirst(
      cfg: Settings, sidecar: bool, st: ReplaySymbol, queue: seq<DepthEvent>, l: ReplayLine, rest: seq<ReplayLine>,
      d: Desk)
    requires ReplayAt(d, st) && SessionInv(d.session)
    ensures var id, t := cfg.idOf(l.symbol), ReplayHandle(cfg, sidecar, st, queue, l);
            var d' := Play(d, id, ReplayTurnScript(cfg, sidecar, st, queue, l));
      && ReplayAt(d', t.state) && SessionInv(d'.session) && d'.rows == d.rows + t.rows
      && Play(d, id, ReplayScript(cfg, sidecar, st, queue, [l] + rest)) ==
         Play(d', id, ReplayScript(cfg, sidecar, t.state, t.queue, rest))
  {
    var id, t := cfg.idOf(l.symbol), ReplayHandle(cfg, sidecar, st, queue, l);
    ReplayTurnWrote(cfg, d, sidecar, st, queue, l);
    DeskKeepsInv(d, id, ReplayTurnScript(cfg, sidecar, st, queue, l));
    ReplayScriptCons(cfg, sidecar, st, queue, l, rest);
    PlayConcat(d, id, ReplayTurnScript(cfg, sidecar, st, queue, l), ReplayScript(cfg, sidecar, t.state, t.queue, rest));
  }

  lemma ReplayRunCons(
      cfg: Settings, sidecar: bool, st: ReplayMap, q: Queues, lines: seq<ReplayLine>, symbol: string)
    requires lines != []
    ensures var l := lines[0];
            var t := ReplayHandle(cfg, sidecar, StateOf(cfg, st, l.symbol), QueueOf(q, l.symbol), l);
            var st', q' := st[l.symbol := t.state], q[l.symbol := t.queue];
            var later := RowsFor(symbol, ReplayRun(cfg, sidecar, st', q', lines[1..]));
      RowsFor(symbol, ReplayRun(cfg, sidecar, st, q, lines)) == if l.symbol == symbol then t.rows + later else later
  {
    var l := lines[0];
    var t := ReplayHandle(cfg, sidecar, StateOf(cfg, st, l.symbol), QueueOf(q, l.symbol), l);
    RowsForFirst(symbol, l.symbol, t.rows,
                 ReplayRun(cfg, sidecar, st[l.symbol := t.state], q[l.symbol := t.queue], lines[1..]));
  }

  ghost predicate ReplayWrites(
      cfg: Settings, sidecar: bool, st: ReplayMap, q: Queues, lines: seq<ReplayLine>, symbol: string, d: Desk)
  {
    var acts := ReplayScript(cfg, sidecar, StateOf(cfg, st, symbol), QueueOf(q, symbol), LinesFor(symbol, lines));
    Play(d, cfg.idOf(symbol), acts).rows == d.rows + RowsFor(symbol, ReplayRun(cfg, sidecar, st, q, lines))
  }

  /** In a replay, with or without a sidecar and whatever the lines, each symbol's rows are those of
      the script of its own lines. */
  lemma {:induction false} ReplayWritesScript(
      cfg: Settings, sidecar: bool, st: ReplayMap, q: Queues, lines: seq<ReplayLine>, symbol: string, d: Desk)
    requires ReplayAt(d, StateOf(cfg, st, symbol)) && SessionInv(d.session)
    ensures ReplayWrites(cfg, sidecar, st, q, lines, symbol, d)
    decreases |lines|
  {
    if lines == [] {
      assert d.rows + [] == d.rows;
    } else {
      var l, rest := lines[0], lines[1..];
      var rep, queue := StateOf(cfg, st, l.symbol), QueueOf(q, l.symbol);
      var t := ReplayHandle(cfg, sidecar, rep, queue, l);
      var st', q' := st[l.symbol := t.state], q[l.symbol := t.queue];
      if l.symbol == symbol {
        ReplayFirst(cfg, sidecar, rep, queue, l, LinesFor(symbol, rest), d);
        var d' := Play(d, cfg.idOf(symbol), ReplayTurnScript(cfg, sidecar, rep, queue, l));
        ReplayWritesScript(cfg, sidecar, st', q', rest, symbol, d');
        ReplayOwnLine(cfg, sidecar, st, q, lines, symbol, d, d', t);
      } else {
        ReplayWritesScript(cfg, sidecar, st', q', rest, symbol, d);
        ReplayOtherLine(cfg, sidecar, st, q, lines, symbol, d, t);
      }
    }
  }

  lemma ReplayOwnLine(
      cfg: Settings, sidecar: bool, st: ReplayMap, q: Queues, lines: seq<ReplayLine>, symbol: string,
      d: Desk, d': Desk, t: ReplayTurn)
    requires lines != [] && lines[0].symbol == symbol
    requires t == ReplayHandle(cfg, sidecar, StateOf(cfg, st, symbol), QueueOf(q, symbol), lines[0])
    requires var mine, id := LinesFor(symbol, lines[1..]), cfg.idOf(symbol);
      && d'.rows == d.rows + t.rows
      && Play(d, id, ReplayScript(cfg, sidecar, StateOf(cfg, st, symbol), QueueOf(q, symbol), [lines[0]] + mine)) ==
         Play(d', id, ReplayScript(cfg, sidecar, t.state, t.queue, mine))
    requires ReplayWrites(cfg, sidecar, st[symbol := t.state], q[symbol := t.queue], lines[1..], symbol, d')
    ensures ReplayWrites(cfg, sidecar, st, q, lines, symbol, d)
  {
    var later := RowsFor(symbol, ReplayRun(cfg, sidecar, st[symbol := t.state], q[symbol := t.queue], lines[1..]));
    ReplayRunCons(cfg, sidecar, st, q, lines, symbol);
    Assoc(d.rows, t.rows, later);
  }

  lemma ReplayOtherLine(
      cfg: Settings, sidecar: bool, st: ReplayMap, q: Queues, lines: seq<ReplayLine>, symbol: string,
      d: Desk, t: ReplayTurn)
    requires lines != [] && lines[0].symbol != symbol
    requires t == ReplayHandle(cfg, sidecar, StateOf(cfg, st, lines[0].symbol), QueueOf(q, lines[0].symbol), lines[0])
    requires var s := lines[0].symbol;
      ReplayWrites(cfg, sidecar, st[s := t.state], q[s := t.queue], lines[1..], symbol, d)
    ensures ReplayWrites(cfg, sidecar, st, q, lines, symbol, d)
  {
    ReplayRunCons(cfg, sidecar, st, q, lines, symbol);
    OtherLinesSkipped(symbol, lines);
  }

  lemma OtherLinesSkipped(symbol: string, lines: seq<ReplayLine>)
    requires lines != [] && lines[0].symbol != symbol
    ensures LinesFor(symbol, lines) == LinesFor(symbol, lines[1..])
  {
  }

  // ---- What the rows of a capture and of a replay say ----

  /** The script of a symbol in a capture from its start. */
  ghost function CaptureScript(cfg: Settings, frames: seq<Frame>, symbol: string): seq<Act> {
    LiveScript(cfg, NewLive(cfg.venue), FramesOf(symbol, frames))
  }

  lemma CaptureWrites(cfg: Settings, frames: seq<Frame>, symbol: string)
    requires symbol in cfg.symbols
    ensures RowsFor(symbol, LiveRun(cfg, FreshSymbols(cfg), frames).rows) ==
            Play(NewDesk(cfg.venue), cfg.idOf(symbol), CaptureScript(cfg, frames, symbol)).rows
  {
    var m, d := FreshSymbols(cfg), NewDesk(cfg.venue);
    EmptyBookInv();
    LiveWritesScript(cfg, m, frames, symbol, d);
    var rows := RowsFor(symbol, LiveRun(cfg, m, frames).rows);
    assert [] + rows == rows;
  }

  /** Every configured symbol of every capture: rows numbered 1, 2, 3, ...; a diff row for each applied
      diff and for nothing else, in order; a trade row for each trade that met a ready book; a
      partial row for each partial message. */
  lemma CaptureRowsAreTruthful(cfg: Settings, frames: seq<Frame>, symbol: string)
    requires symbol in cfg.symbols
    ensures Truthful(cfg.venue, cfg.idOf(symbol), CaptureScript(cfg, frames, symbol),
                     RowsFor(symbol, LiveRun(cfg, FreshSymbols(cfg), frames).rows))
  {
    CaptureWrites(cfg, frames, symbol);
    RowsAreTruthful(cfg.venue, cfg.idOf(symbol), CaptureScript(cfg, frames, symbol));
  }

  /** The snapshots that replay finds in the sidecar. */
  function RecordedQueues(cfg: Settings, sidecar: Option<string>): Queues {
    if sidecar.None? then map[] else LoadSnaps(cfg, map[], AfterHeader(Lines(sidecar.value)))
  }

  ghost function FileScript(cfg: Settings, md: string, sidecar: Option<string>, symbol: string): seq<Act> {
    ReplayScript(cfg, sidecar.Some?, NewReplay(cfg.venue), QueueOf(RecordedQueues(cfg, sidecar), symbol),
                 LinesFor(symbol, ReadMdLines(AfterHeader(Lines(md)))))
  }

  lemma ReplayWritesFile(cfg: Settings, md: string, sidecar: Option<string>, symbol: string)
    ensures RowsFor(symbol, Replay(cfg, md, sidecar)) ==
            Play(NewDesk(cfg.venue), cfg.idOf(symbol), FileScript(cfg, md, sidecar, symbol)).rows
  {
    var d := NewDesk(cfg.venue);
    EmptyBookInv();
    ReplayWritesScript(cfg, sidecar.Some?, map[], RecordedQueues(cfg, sidecar),
                       ReadMdLines(AfterHeader(Lines(md))), symbol, d);
    var rows := RowsFor(symbol, Replay(cfg, md, sidecar));
    assert [] + rows == rows;
  }

  /** The same for every symbol in the replay of any text, with any sidecar or none. */
  lemma ReplayRowsAreTruthful(cfg: Settings, md: string, sidecar: Option<string>, symbol: string)
    ensures Truthful(cfg.venue, cfg.idOf(symbol), FileScript(cfg, md, sidecar, symbol),
                     RowsFor(symbol, Replay(cfg, md, sidecar)))
  {
    ReplayWritesFile(cfg, md, sidecar, symbol);
    RowsAreTruthful(cfg.venue, cfg.idOf(symbol), FileScript(cfg, md, sidecar, symbol));
  }

  /** No diff or trade row of a capture is written while a snapshot is awaited, nor on a new connection
      before its first snapshot: the act that wrote it met a live session or is a snapshot, and no
      reconnect lies between it and the last snapshot. */
  lemma CaptureRowsFollowASnapshot(cfg: Settings, frames: seq<Frame>, symbol: string, i: nat) returns (j: nat)
    requires symbol in cfg.symbols
    requires var rows := RowsFor(symbol, LiveRun(cfg, FreshSymbols(cfg), frames).rows);
      i < |rows| && rows[i].kind != 'S'
    ensures var acts := CaptureScript(cfg, frames, symbol);
      WrittenBy(NewDesk(cfg.venue), cfg.idOf(symbol), acts, i, j) && MayShow(cfg.venue, acts, j)
  {
    CaptureWrites(cfg, frames, symbol);
    j := RowsFollowASnapshot(cfg.venue, cfg.idOf(symbol), CaptureScript(cfg, frames, symbol), i);
  }

  /** The same for the replay of any text. */
  lemma ReplayRowsFollowASnapshot(cfg: Settings, md: string, sidecar: Option<string>, symbol: string, i: nat)
    returns (j: nat)
    requires var rows := RowsFor(symbol, Replay(cfg, md, sidecar)); i < |rows| && rows[i].kind != 'S'
    ensures var acts := FileScript(cfg, md, sidecar, symbol);
      WrittenBy(NewDesk(cfg.venue), cfg.idOf(symbol), acts, i, j) && MayShow(cfg.venue, acts, j)
  {
    ReplayWritesFile(cfg, md, sidecar, symbol);
    j := RowsFollowASnapshot(cfg.venue, cfg.idOf(symbol), FileScript(cfg, md, sidecar, symbol), i);
  }

  // ---- Rows show the exchange ----

  ghost predicate HonestSnapshot(h: History, svc: Service, snap: DepthEvent) {
    Complete(h, svc, Bid, snap.lastUpdateId, snap.bids) && Complete(h, svc, Ask, snap.lastUpdateId, snap.asks)
  }

  /** The exchange's promises, on what a message and the reply to its snapshot request parse to. */
  ghost predicate HonestFrame(h: History, svc: Service, cfg: Settings, f: Frame) {
    && (f.kind.DepthDiff? && cfg.parse(f.data).Some? ==> Faithful(h, cfg.venue, cfg.parse(f.data).value))
    && (FetchSnapshot(cfg, f.rest).Some? ==> HonestSnapshot(h, svc, FetchSnapshot(cfg, f.rest).value))
  }

  ghost predicate HonestScript(h: History, svc: Service, venue: Venue, acts: seq<Act>) {
    forall op :: op in OpsOf(acts) ==> Honest(h, svc, venue, op)
  }

  lemma HonestConcat(h: History, svc: Service, venue: Venue, a: seq<Act>, b: seq<Act>)
    requires HonestScript(h, svc, venue, a) && HonestScript(h, svc, venue, b)
    ensures HonestScript(h, svc, venue, a + b)
  {
    OpsConcat(a, b);
  }

  lemma HonestOne(h: History, svc: Service, venue: Venue, act: Act)
    requires act.Do? ==> Honest(h, svc, venue, act.op)
    ensures HonestScript(h, svc, venue, [act]) && HonestScript(h, svc, venue, [])
  {
    OpsOne(act);
  }

  lemma HonestDiff(h: History, svc: Service, venue: Venue, s: Session, ev: DepthEvent, snap: Option<DepthEvent>)
    requires Faithful(h, venue, ev) && (snap.Some? ==> HonestSnapshot(h, svc, snap.value))
    ensures HonestScript(h, svc, venue, DiffScript(s, ev, snap))
  {
    HonestOne(h, svc, venue, Do(Diff(ev)));
    if TakesSnapshot(s, ev, snap) {
      HonestOne(h, svc, venue, Do(SnapshotOp(snap.value)));
      HonestConcat(h, svc, venue, [Do(Diff(ev))], [Do(SnapshotOp(snap.value))]);
    } else {
      assert [Do(Diff(ev))] + [] == [Do(Diff(ev))];
    }
  }

  lemma Restamped(h: History, venue: Venue, ev: DepthEvent, ts: Timestamp)
    requires Faithful(h, venue, ev)
    ensures Faithful(h, venue, ev.(appliedTime := ts))
  {
  }

  lemma HonestLiveTurn(h: History, svc: Service, cfg: Settings, st: LiveSymbol, f: Frame)
    requires HonestFrame(h, svc, cfg, f)
    ensures HonestScript(h, svc, cfg.venue, LiveTurnScript(cfg, st, f))
  {
    HonestOne(h, svc, cfg.venue, Do(Reconnect));
    if !ParseFails(cfg, f.kind, f.data) {
      var s := LiveEpoch(st, f.epoch).session;
      match f.kind {
        case DepthDiff =>
          Restamped(h, cfg.venue, cfg.parse(f.data).value, LiveStamp(cfg, f));
          HonestDiff(h, svc, cfg.venue, s, cfg.parse(f.data).value.(appliedTime := LiveStamp(cfg, f)),
                     FetchSnapshot(cfg, f.rest));
        case Depth5 => HonestOne(h, svc, cfg.venue, ShowPartial(cfg.parse(f.data).value, LiveStamp(cfg, f)));
        case Trade => HonestOne(h, svc, cfg.venue, ShowBook(LiveStamp(cfg, f)));
      }
      HonestConcat(h, svc, cfg.venue, LiveEpochScript(st, f.epoch), LiveKindScript(cfg, s, f));
    }
  }

  lemma {:induction false} HonestLive(h: History, svc: Service, cfg: Settings, st: LiveSymbol, frames: seq<Frame>)
    requires forall f :: f in frames ==> HonestFrame(h, svc, cfg, f)
    ensures HonestScript(h, svc, cfg.venue, LiveScript(cfg, st, frames))
    decreases |frames|
  {
    if frames != [] {
      var st' := LiveHandle(cfg, st, frames[0]).state;
      HonestLiveTurn(h, svc, cfg, st, frames[0]);
      HonestLive(h, svc, cfg, st', frames[1..]);
      HonestConcat(h, svc, cfg.venue, LiveTurnScript(cfg, st, frames[0]), LiveScript(cfg, st', frames[1..]));
    }
  }

  /** End to end: whatever the network loses, repeats or reorders, and whenever it reconnects, in a
      capture of any number of symbols the diff rows of a symbol show the exchange's best five levels
      at the final id of their diff, and its trade rows at the last id of the book: always when
      snapshots list the whole book, and while the row stays inside the last snapshot's reach when
      they list its best levels only. */
  lemma CaptureRowsShowTheExchange(h: History, svc: Service, cfg: Settings, frames: seq<Frame>, symbol: string)
    requires symbol in cfg.symbols
    requires forall f :: f in FramesOf(symbol, frames) ==> HonestFrame(h, svc, cfg, f)
    ensures TrueToExchange(h, svc, cfg.venue, CaptureScript(cfg, frames, symbol),
                           RowsFor(symbol, LiveRun(cfg, FreshSymbols(cfg), frames).rows))
  {
    CaptureWrites(cfg, frames, symbol);
    HonestLive(h, svc, cfg, NewLive(cfg.venue), FramesOf(symbol, frames));
    RowsAreTrueToExchange(h, svc, cfg.venue, cfg.idOf(symbol), CaptureScript(cfg, frames, symbol));
  }

  /** For a line: diffs are faithful and, without a sidecar, partial-depth messages honest snapshots. */
  ghost predicate HonestLine(h: History, svc: Service, cfg: Settings, sidecar: bool, l: ReplayLine) {
    var p := cfg.parse(l.payload);
    && (l.kind == "depth_diff" && p.Some? ==> Faithful(h, cfg.venue, p.value))
    && (l.kind == "depth5" && p.Some? && !sidecar ==> HonestSnapshot(h, svc, p.value))
  }

  ghost predicate HonestQueue(h: History, svc: Service, queue: seq<DepthEvent>) {
    forall snap :: snap in queue ==> HonestSnapshot(h, svc, snap)
  }

  lemma HonestReplayKind(
      h: History, svc: Service, cfg: Settings, sidecar: bool, s: Session, queue: seq<DepthEvent>, l: ReplayLine)
    requires HonestLine(h, svc, cfg, sidecar, l) && HonestQueue(h, svc, queue)
    ensures HonestScript(h, svc, cfg.venue, ReplayKindScript(cfg, sidecar, s, queue, l))
  {
    var p := cfg.parse(l.payload);
    HonestOne(h, svc, cfg.venue, ShowBook(l.ts));
    if l.kind == "depth_diff" && p.Some? {
      Restamped(h, cfg.venue, p.value, l.ts);
      HonestDiff(h, svc, cfg.venue, s, p.value.(appliedTime := l.ts), Next(queue));
    } else if l.kind == "depth5" && p.Some? {
      HonestOne(h, svc, cfg.venue, ShowPartial(p.value, l.ts));
      if !sidecar {
        HonestOne(h, svc, cfg.venue, Do(SnapshotOp(p.value)));
      }
      HonestConcat(h, svc, cfg.venue, if sidecar then [] else [Do(SnapshotOp(p.value))], [ShowPartial(p.value, l.ts)]);
    }
  }

  lemma HonestReplayTurn(
      h: History, svc: Service, cfg: Settings, sidecar: bool, st: ReplaySymbol, queue: seq<DepthEvent>, l: ReplayLine)
    requires HonestLine(h, svc, cfg, sidecar, l) && HonestQueue(h, svc, queue)
    ensures HonestScript(h, svc, cfg.venue, ReplayTurnScript(cfg, sidecar, st, queue, l))
  {
    var s := ReplayEpoch(st, l.epoch).session;
    HonestOne(h, svc, cfg.venue, Do(Reconnect));
    HonestReplayKind(h, svc, cfg, sidecar, s, queue, l);
    HonestConcat(h, svc, cfg.venue, ReplayEpochScript(st, l.epoch), ReplayKindScript(cfg, sidecar, s, queue, l));
  }

  lemma QueueShrinks(cfg: Settings, sidecar: bool, st: ReplaySymbol, queue: seq<DepthEvent>, l: ReplayLine)
    ensures var t := ReplayHandle(cfg, sidecar, st, queue, l);
      t.queue == queue || (queue != [] && t.queue == queue[1..])
  {
  }

  lemma {:induction false} HonestReplay(
      h: History, svc: Service, cfg: Settings, sidecar: bool, st: ReplaySymbol, queue: seq<DepthEvent>,
      lines: seq<ReplayLine>)
    requires HonestQueue(h, svc, queue)
    requires forall l :: l in lines ==> HonestLine(h, svc, cfg, sidecar, l)
    ensures HonestScript(h, svc, cfg.venue, ReplayScript(cfg, sidecar, st, queue, lines))
    decreases |lines|
  {
    if lines != [] {
      var t := ReplayHandle(cfg, sidecar, st, queue, lines[0]);
      HonestReplayTurn(h, svc, cfg, sidecar, st, queue, lines[0]);
      QueueShrinks(cfg, sidecar, st, queue, lines[0]);
      HonestReplay(h, svc, cfg, sidecar, t.state, t.queue, lines[1..]);
      HonestConcat(h, svc, cfg.venue, ReplayTurnScript(cfg, sidecar, st, queue, lines[0]),
                   ReplayScript(cfg, sidecar, t.state, t.queue, lines[1..]));
    }
  }

  /** The same for replay: with a sidecar of honest snapshots, and without one, where partial-depth
      messages of the best levels seed the book. */
  lemma ReplayRowsShowTheExchange(
      h: History, svc: Service, cfg: Settings, md: string, sidecar: Option<string>, symbol: string)
    requires HonestQueue(h, svc, QueueOf(RecordedQueues(cfg, sidecar), symbol))
    requires forall l :: l in LinesFor(symbol, ReadMdLines(AfterHeader(Lines(md)))) ==>
      HonestLine(h, svc, cfg, sidecar.Some?, l)
    ensures TrueToExchange(h, svc, cfg.venue, FileScript(cfg, md, sidecar, symbol),
                           RowsFor(symbol, Replay(cfg, md, sidecar)))
  {
    var lines := LinesFor(symbol, ReadMdLines(AfterHeader(Lines(md))));
    var queue := QueueOf(RecordedQueues(cfg, sidecar), symbol);
    ReplayWritesFile(cfg, md, sidecar, symbol);
    HonestReplay(h, svc, cfg, sidecar.Some?, NewReplay(cfg.venue), queue, lines);
    RowsAreTrueToExchange(h, svc, cfg.venue, cfg.idOf(symbol), FileScript(cfg, md, sidecar, symbol));
  }
}
