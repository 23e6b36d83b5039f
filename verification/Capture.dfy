/** The live message handler and the replay row handler, symbol by symbol, as functions of the
    per-symbol state, and as objects proved to compute them. */
module Capture {
  import opened MarketTypes
  import opened Books
  import opened Sessions

  datatype StreamKind = DepthDiff | Depth5 | Trade

  function KindName(k: StreamKind): string {
    match k
    case DepthDiff => "depth_diff"
    case Depth5 => "depth5"
    case Trade => "trade"
  }

  /** Command-line choices, and the code that is the same in both modes and not looked into here:
      the depth parser, the event-time lookup for trades and the instrument id of a symbol. */
  datatype Settings = Settings(
    venue: Venue,
    symbols: set<string>,
    eventTime: bool,
    trades: bool,
    shard: nat,
    parse: string -> Option<DepthEvent>,
    tradeTimeMs: string -> int,
    idOf: string -> int)

  datatype ObRow = ObRow(ts: Timestamp, seqNo: nat, id: int, kind: char, side: char, top: TopFive)

  // ---- Rows ----

  /** The row for one applied diff. */
  function DiffRow(a: AppliedDiff, seqNo: nat, id: int): ObRow {
    ObRow(a.ev.appliedTime, seqNo, id, 'D', 'N', CachedTop(a.book))
  }

  function DiffRows(applied: seq<AppliedDiff>, from: nat, id: int): seq<ObRow> {
    seq(|applied|, i requires 0 <= i < |applied| => DiffRow(applied[i], from + i + 1, id))
  }

  /** A partial-depth row: the message's own first five levels, zero-padded. */
  function PartialRow(ev: DepthEvent, ts: Timestamp, seqNo: nat, id: int): ObRow {
    ObRow(ts, seqNo, id, 'S', 'N', Columns(ev.bids, ev.asks))
  }

  function BookRow(b: Book, ts: Timestamp, seqNo: nat, id: int, kind: char): ObRow {
    ObRow(ts, seqNo, id, kind, 'N', CachedTop(b))
  }

  predicate Ready(s: Session) {
    s.book.initialized && !s.pending
  }

  predicate WantsSnapshot(s: Session, o: Outcome) {
    o == ResyncNeeded || (o == Buffered && s.pending)
  }

  function MsToTimestamp(ms: int): Timestamp
    requires ms > 0
  {
    Timestamp(ms / 1000, ms % 1000 * 1000000)
  }

  // ---- Live ----

  /** The body of a REST reply and when it was recorded. */
  datatype RestReply = RestReply(body: string, at: Timestamp)

  /** A message whose envelope has been split. `rest` is what a snapshot request made while it is
      handled would return. */
  datatype Frame = Frame(
    symbol: string, kind: StreamKind, data: string, recv: Timestamp,
    epoch: Uint64, connSeq: nat, rest: Option<RestReply>)

  datatype LiveSymbol = LiveSymbol(session: Session, obSeq: nat, lastEpoch: Uint64)

  datatype SnapRecord = SnapRecord(at: Timestamp, symbol: string, lastUpdateId: Uint64, body: string)

  /** One symbol after one message: its state, the rows written, the sidecar entry written, and
      whether a snapshot was asked for in vain. */
  datatype LiveTurn = LiveTurn(state: LiveSymbol, rows: seq<ObRow>, snap: Option<SnapRecord>, failed: bool)

  function NewLive(venue: Venue): LiveSymbol {
    LiveSymbol(NewSession(venue), 0, UINT64_MAX)
  }

  function FetchSnapshot(cfg: Settings, rest: Option<RestReply>): Option<DepthEvent> {
    if rest.None? then None else cfg.parse(rest.value.body)
  }

  function LiveStamp(cfg: Settings, f: Frame): Timestamp {
    if f.kind != Trade && f.symbol in cfg.symbols then
      var p := cfg.parse(f.data);
      if p.Some? && cfg.eventTime && p.value.eventTimeMs > 0 then MsToTimestamp(p.value.eventTimeMs) else f.recv
    else if cfg.eventTime && cfg.tradeTimeMs(f.data) > 0 then MsToTimestamp(cfg.tradeTimeMs(f.data))
    else f.recv
  }

  predicate ParseFails(cfg: Settings, kind: StreamKind, data: string) {
    kind != Trade && cfg.parse(data).None?
  }

  /** A new connection epoch invalidates the book; the very first one does not. */
  function LiveEpoch(st: LiveSymbol, epoch: Uint64): LiveSymbol {
    if st.lastEpoch == epoch then st
    else
      st.(session := if st.lastEpoch != UINT64_MAX then RequestResync(st.session) else st.session,
          lastEpoch := epoch)
  }

  ghost function LiveResync(cfg: Settings, st: LiveSymbol, f: Frame): LiveTurn {
    var got := FetchSnapshot(cfg, f.rest);
    if got.None? then LiveTurn(st, [], None, true)
    else
      var snap := got.value;
      var r := OnSnapshot(st.session, snap.bids, snap.asks, snap.lastUpdateId);
      var rows := DiffRows(r.applied, st.obSeq, cfg.idOf(f.symbol));
      LiveTurn(st.(session := r.session, obSeq := st.obSeq + |rows|), rows,
               Some(SnapRecord(f.rest.value.at, f.symbol, snap.lastUpdateId, f.rest.value.body)), false)
  }

  ghost function LiveDiff(cfg: Settings, st: LiveSymbol, f: Frame, ev: DepthEvent): LiveTurn {
    var o, d := DiffOutcome(st.session, ev), OnDiff(st.session, ev);
    var next := st.(session := d.session);
    if o == Outcome.Applied then
      LiveEmit(cfg, next, ev.appliedTime, f.symbol, 'D')
    else if WantsSnapshot(d.session, o) then LiveResync(cfg, next, f)
    else LiveTurn(next, [], None, false)
  }

  /** Emits a row from the book unless it is unseeded or waiting for a snapshot. */
  function LiveEmit(cfg: Settings, st: LiveSymbol, ts: Timestamp, symbol: string, kind: char): LiveTurn {
    if !Ready(st.session) then LiveTurn(st, [], None, false)
    else
      LiveTurn(st.(obSeq := st.obSeq + 1),
               [BookRow(st.session.book, ts, st.obSeq + 1, cfg.idOf(symbol), kind)], None, false)
  }

  ghost function LiveHandle(cfg: Settings, st: LiveSymbol, f: Frame): LiveTurn {
    if ParseFails(cfg, f.kind, f.data) then LiveTurn(st, [], None, false)
    else
      var cur, ts := LiveEpoch(st, f.epoch), LiveStamp(cfg, f);
      match f.kind
      case DepthDiff => LiveDiff(cfg, cur, f, cfg.parse(f.data).value.(appliedTime := ts))
      case Depth5 =>
        LiveTurn(cur.(obSeq := cur.obSeq + 1),
                 [PartialRow(cfg.parse(f.data).value, ts, cur.obSeq + 1, cfg.idOf(f.symbol))], None, false)
      case Trade => if cfg.trades then LiveEmit(cfg, cur, ts, f.symbol, 'T') else LiveTurn(cur, [], None, false)
  }

  // ---- Replay ----

  /** The columns of a market-data line that replay reads. */
  datatype ReplayLine = ReplayLine(ts: Timestamp, kind: string, epoch: Uint64, symbol: string, payload: string)

  datatype ReplaySymbol = ReplaySymbol(session: Session, seqNo: nat, epoch: Option<Uint64>)

  /** `queue` holds the recorded snapshots of the symbol not yet used. */
  datatype ReplayTurn = ReplayTurn(state: ReplaySymbol, queue: seq<DepthEvent>, rows: seq<ObRow>)

  function NewReplay(venue: Venue): ReplaySymbol {
    ReplaySymbol(NewSession(venue), 0, None)
  }

  function ReplayEpoch(st: ReplaySymbol, epoch: Uint64): ReplaySymbol {
    if st.epoch == Some(epoch) then st
    else st.(session := if st.epoch.Some? then RequestResync(st.session) else st.session, epoch := Some(epoch))
  }

  ghost function ReplaySeed(
      cfg: Settings, st: ReplaySymbol, snap: DepthEvent, rest: seq<DepthEvent>, symbol: string): ReplayTurn
  {
    var r := OnSnapshot(st.session, snap.bids, snap.asks, snap.lastUpdateId);
    var rows := DiffRows(r.applied, st.seqNo, cfg.idOf(symbol));
    ReplayTurn(st.(session := r.session, seqNo := st.seqNo + |rows|), rest, rows)
  }

  ghost function ReplayDiff(
      cfg: Settings, st: ReplaySymbol, queue: seq<DepthEvent>, l: ReplayLine, ev: DepthEvent): ReplayTurn
  {
    var o, d := DiffOutcome(st.session, ev), OnDiff(st.session, ev);
    var next := st.(session := d.session);
    if o == Outcome.Applied then ReplayEmit(cfg, next, queue, l, 'D')
    else if WantsSnapshot(d.session, o) && queue != [] then ReplaySeed(cfg, next, queue[0], queue[1..], l.symbol)
    else ReplayTurn(next, queue, [])
  }

  function ReplayEmit(cfg: Settings, st: ReplaySymbol, queue: seq<DepthEvent>, l: ReplayLine, kind: char): ReplayTurn {
    if !Ready(st.session) then ReplayTurn(st, queue, [])
    else
      ReplayTurn(st.(seqNo := st.seqNo + 1), queue,
                 [BookRow(st.session.book, l.ts, st.seqNo + 1, cfg.idOf(l.symbol), kind)])
  }

  /** Without a sidecar a partial-depth message also seeds the book. */
  ghost function ReplayPartial(
      cfg: Settings, sidecar: bool, st: ReplaySymbol, queue: seq<DepthEvent>, l: ReplayLine, ev: DepthEvent): ReplayTurn
  {
    var t := if sidecar then ReplayTurn(st, queue, []) else ReplaySeed(cfg, st, ev, queue, l.symbol);
    ReplayTurn(t.state.(seqNo := t.state.seqNo + 1), queue,
               t.rows + [PartialRow(ev, l.ts, t.state.seqNo + 1, cfg.idOf(l.symbol))])
  }

  ghost function ReplayHandle(
      cfg: Settings, sidecar: bool, st: ReplaySymbol, queue: seq<DepthEvent>, l: ReplayLine): ReplayTurn
  {
    var cur := ReplayEpoch(st, l.epoch);
    if l.kind == "depth_diff" then
      var p := cfg.parse(l.payload);
      if p.None? then ReplayTurn(cur, queue, [])
      else ReplayDiff(cfg, cur, queue, l, p.value.(appliedTime := l.ts))
    else if l.kind == "depth5" then
      var p := cfg.parse(l.payload);
      if p.None? then ReplayTurn(cur, queue, [])
      else ReplayPartial(cfg, sidecar, cur, queue, l, p.value.(appliedTime := l.ts))
    else if l.kind == "trade" && cfg.trades then ReplayEmit(cfg, cur, queue, l, 'T')
    else ReplayTurn(cur, queue, [])
  }

  // ---- One symbol: replay follows live ----

  /** Replay is level with live, or both are untouched, or replay has already seen a new epoch in a
      message that live skipped. */
  ghost predicate Follows(venue: Venue, live: LiveSymbol, rep: ReplaySymbol) {
    || (rep.session == live.session && rep.epoch == Some(live.lastEpoch))
    || (rep.session == live.session == NewSession(venue) && live.lastEpoch == UINT64_MAX)
    || (rep.session == RequestResync(live.session) && rep.epoch.Some? && live.lastEpoch < rep.epoch.value)
  }

  /** The epoch seen last, if any, is at most `lo`. */
  predicate EpochsUpTo(rep: ReplaySymbol, lo: Uint64) {
    rep.epoch.Some? ==> rep.epoch.value <= lo
  }

  lemma EpochBrings(venue: Venue, live: LiveSymbol, rep: ReplaySymbol, epoch: Uint64)
    requires Follows(venue, live, rep) && EpochsUpTo(rep, epoch)
    ensures var l, r := LiveEpoch(live, epoch), ReplayEpoch(rep, epoch);
      l.session == r.session && r.epoch == Some(l.lastEpoch) && l.lastEpoch == epoch
  {
  }

  lemma SkippedStillFollows(venue: Venue, live: LiveSymbol, rep: ReplaySymbol, epoch: Uint64)
    requires Follows(venue, live, rep) && EpochsUpTo(rep, epoch)
    ensures Follows(venue, live, ReplayEpoch(rep, epoch))
  {
  }

  function LineOf(cfg: Settings, f: Frame): ReplayLine {
    ReplayLine(LiveStamp(cfg, f), KindName(f.kind), f.epoch, f.symbol, f.data)
  }

  /** The snapshot that a turn recorded, as replay will find it. */
  function Recorded(cfg: Settings, t: LiveTurn, f: Frame): seq<DepthEvent>
    requires t.snap.Some? ==> FetchSnapshot(cfg, f.rest).Some?
  {
    if t.snap.Some? then [FetchSnapshot(cfg, f.rest).value] else []
  }

  lemma RecordedWasFetched(cfg: Settings, live: LiveSymbol, f: Frame)
    ensures LiveHandle(cfg, live, f).snap.Some? ==> FetchSnapshot(cfg, f.rest).Some?
  {
  }

  /** One message: if live got every snapshot it asked for and the recorded ones come in the same
      order, replay writes as many rows, uses the same snapshots and keeps following; and when both
      have written as many rows before, the rows are the same. */
  lemma TurnFollows(cfg: Settings, live: LiveSymbol, rep: ReplaySymbol, f: Frame, later: seq<DepthEvent>)
    requires Follows(cfg.venue, live, rep) && EpochsUpTo(rep, f.epoch)
    requires f.symbol in cfg.symbols
    requires var t := LiveHandle(cfg, live, f); !t.failed && (t.snap.Some? ==> FetchSnapshot(cfg, f.rest).Some?)
    ensures var t := LiveHandle(cfg, live, f);
            var r := ReplayHandle(cfg, true, rep, Recorded(cfg, t, f) + later, LineOf(cfg, f));
      && |r.rows| == |t.rows|
      && r.queue == later
      && Follows(cfg.venue, t.state, r.state)
      && EpochsUpTo(r.state, f.epoch)
      && (live.obSeq == rep.seqNo ==> r.rows == t.rows && t.state.obSeq == r.state.seqNo)
  {
    if ParseFails(cfg, f.kind, f.data) {
      SkippedStillFollows(cfg.venue, live, rep, f.epoch);
      assert [] + later == later;
    } else {
      EpochBrings(cfg.venue, live, rep, f.epoch);
      var l, r := LiveEpoch(live, f.epoch), ReplayEpoch(rep, f.epoch);
      if f.kind.DepthDiff? {
        DiffTurnFollows(cfg, l, r, f, cfg.parse(f.data).value.(appliedTime := LiveStamp(cfg, f)), later);
      } else {
        assert [] + later == later;
      }
    }
  }

  ghost predicate SameTurn(live: LiveSymbol, rep: ReplaySymbol, t: LiveTurn, r: ReplayTurn) {
    && |r.rows| == |t.rows|
    && r.state.session == t.state.session
    && r.state.epoch == rep.epoch && t.state.lastEpoch == live.lastEpoch
    && (live.obSeq == rep.seqNo ==> r.rows == t.rows && t.state.obSeq == r.state.seqNo)
  }

  lemma DiffTurnFollows(
      cfg: Settings, live: LiveSymbol, rep: ReplaySymbol, f: Frame, ev: DepthEvent, later: seq<DepthEvent>)
    requires live.session == rep.session && rep.epoch == Some(live.lastEpoch)
    requires ev.appliedTime == LineOf(cfg, f).ts
    requires var t := LiveDiff(cfg, live, f, ev); !t.failed && (t.snap.Some? ==> FetchSnapshot(cfg, f.rest).Some?)
    ensures var t := LiveDiff(cfg, live, f, ev);
            var r := ReplayDiff(cfg, rep, Recorded(cfg, t, f) + later, LineOf(cfg, f), ev);
      SameTurn(live, rep, t, r) && r.queue == later
  {
    var t := LiveDiff(cfg, live, f, ev);
    if t.snap.Some? {
      var snap := FetchSnapshot(cfg, f.rest).value;
      FirstOfQueue(snap, later);
      SnapshotTurnFollows(cfg, live, rep, f, ev, snap, [snap] + later);
    } else {
      assert [] + later == later;
      PlainTurnFollows(cfg, live, rep, f, ev, later);
    }
  }

  lemma SnapshotTurnFollows(
      cfg: Settings, live: LiveSymbol, rep: ReplaySymbol, f: Frame, ev: DepthEvent, snap: DepthEvent,
      queue: seq<DepthEvent>)
    requires live.session == rep.session && queue != [] && queue[0] == snap && FetchSnapshot(cfg, f.rest) == Some(snap)
    requires LiveDiff(cfg, live, f, ev).snap.Some?
    ensures var t, r := LiveDiff(cfg, live, f, ev), ReplayDiff(cfg, rep, queue, LineOf(cfg, f), ev);
      SameTurn(live, rep, t, r) && r.queue == queue[1..]
  {
  }

  lemma PlainTurnFollows(
      cfg: Settings, live: LiveSymbol, rep: ReplaySymbol, f: Frame, ev: DepthEvent, queue: seq<DepthEvent>)
    requires live.session == rep.session && ev.appliedTime == LineOf(cfg, f).ts
    requires LiveDiff(cfg, live, f, ev).snap.None? && !LiveDiff(cfg, live, f, ev).failed
    ensures var t, r := LiveDiff(cfg, live, f, ev), ReplayDiff(cfg, rep, queue, LineOf(cfg, f), ev);
      SameTurn(live, rep, t, r) && r.queue == queue
  {
  }

  lemma FirstOfQueue(snap: DepthEvent, later: seq<DepthEvent>)
    ensures ([snap] + later)[0] == snap && ([snap] + later)[1..] == later
  {
  }

  /** A line that live never handled for this symbol and whose payload does not parse can only be
      taken for a trade: it then adds a row exactly when live's book would be ready for one. */
  lemma StrayTurn(cfg: Settings, live: LiveSymbol, rep: ReplaySymbol, queue: seq<DepthEvent>, l: ReplayLine)
    requires Follows(cfg.venue, live, rep) && EpochsUpTo(rep, l.epoch)
    requires cfg.parse(l.payload).None?
    ensures var r := ReplayHandle(cfg, true, rep, queue, l);
      && r.queue == queue
      && Follows(cfg.venue, live, r.state)
      && EpochsUpTo(r.state, l.epoch)
      && r.state.seqNo == rep.seqNo + |r.rows|
      && |r.rows| ==
         if l.kind == "trade" && cfg.trades && Ready(LiveEpoch(live, l.epoch).session) then 1 else 0
  {
    SkippedStillFollows(cfg.venue, live, rep, l.epoch);
    EpochBrings(cfg.venue, live, rep, l.epoch);
  }
}
