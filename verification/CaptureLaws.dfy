/** What the live and replay handlers do with one message, in terms of its ids, times and epoch: when they
    ask for a snapshot, what time they stamp, and what a new connection changes. */
module CaptureLaws {
  import opened MarketTypes
  import opened Sessions
  import opened Continuity
  import opened Capture

  // ---- New connections ----

  /** A message of the connection last seen changes nothing. One of another connection is remembered, and
      starts the session over, unless the handler is still at its initial mark, the largest number. */
  lemma NewEpochStartsOver(st: LiveSymbol, epoch: Uint64)
    ensures var t := LiveEpoch(st, epoch);
      && t.lastEpoch == epoch && t.obSeq == st.obSeq
      && if st.lastEpoch == epoch || st.lastEpoch == 0xFFFF_FFFF_FFFF_FFFF then t.session == st.session
         else StartedOver(st.session, t.session)
  {
  }

  lemma NewEpochStartsReplayOver(st: ReplaySymbol, epoch: Uint64)
    ensures var t := ReplayEpoch(st, epoch);
      && t.epoch == Some(epoch) && t.seqNo == st.seqNo
      && if st.epoch == None || st.epoch == Some(epoch) then t.session == st.session
         else StartedOver(st.session, t.session)
  {
  }

  /** Nothing of the book or the backlog is left. */
  predicate StartedOver(s: Session, t: Session) {
    && t.pending && t.buffer == [] && Unseeded(t.book) && t.venue == s.venue && t.overflows == s.overflows
  }

  // ---- Snapshots ----

  /** A diff makes the session need a snapshot: it already waits for one, or the diff reaches past the book
      and may not follow it. */
  predicate NeedsSnapshot(s: Session, ev: DepthEvent) {
    !IsLive(s) || (s.book.lastId < ev.finalId && !MayFollow(s.venue, s.book.lastId, s.book.started, ev))
  }

  lemma NeedIsPending(s: Session, ev: DepthEvent)
    requires SessionInv(s)
    ensures NeedsSnapshot(s, ev) <==> WantsSnapshot(OnDiff(s, ev).session, DiffOutcome(s, ev))
  {
  }

  /** What is asked for and recorded on a parsed diff: nothing when no snapshot is needed; otherwise a
      snapshot, which fails exactly when there is no reply or the reply does not parse, and is recorded with
      its time, symbol, id and text when it succeeds. */
  lemma SnapshotIsAskedIff(cfg: Settings, st: LiveSymbol, f: Frame)
    requires SessionInv(st.session) && f.kind.DepthDiff? && cfg.parse(f.data).Some?
    ensures var t, s := LiveHandle(cfg, st, f), LiveEpoch(st, f.epoch).session;
      if !NeedsSnapshot(s, cfg.parse(f.data).value) then t.snap == None && !t.failed
      else if f.rest == None || cfg.parse(f.rest.value.body) == None then t.snap == None && t.failed
      else
        && !t.failed
        && t.snap == Some(SnapRecord(f.rest.value.at, f.symbol,
                                     cfg.parse(f.rest.value.body).value.lastUpdateId, f.rest.value.body))
  {
    EmptyBookInv();
    var s, ev := LiveEpoch(st, f.epoch).session, cfg.parse(f.data).value;
    NeedIsPending(s, ev.(appliedTime := LiveStamp(cfg, f)));
    AskedByDiff(cfg, LiveEpoch(st, f.epoch), f, ev.(appliedTime := LiveStamp(cfg, f)));
  }

  lemma AskedByDiff(cfg: Settings, st: LiveSymbol, f: Frame, ev: DepthEvent)
    ensures var t := LiveDiff(cfg, st, f, ev);
      if !WantsSnapshot(OnDiff(st.session, ev).session, DiffOutcome(st.session, ev)) then t.snap == None && !t.failed
      else if f.rest == None || cfg.parse(f.rest.value.body) == None then t.snap == None && t.failed
      else
        && !t.failed
        && t.snap == Some(SnapRecord(f.rest.value.at, f.symbol,
                                     cfg.parse(f.rest.value.body).value.lastUpdateId, f.rest.value.body))
  {
  }

  /** No other message asks for a snapshot. */
  lemma OnlyDiffsAsk(cfg: Settings, st: LiveSymbol, f: Frame)
    requires !f.kind.DepthDiff? || cfg.parse(f.data).None?
    ensures LiveHandle(cfg, st, f).snap == None && !LiveHandle(cfg, st, f).failed
  {
  }

  /** Replay takes the next recorded snapshot on exactly the diffs that need one. */
  lemma RecordedIsTakenIff(cfg: Settings, st: ReplaySymbol, queue: seq<DepthEvent>, l: ReplayLine)
    requires SessionInv(st.session) && l.kind == "depth_diff" && cfg.parse(l.payload).Some?
    ensures var r, s := ReplayHandle(cfg, true, st, queue, l), ReplayEpoch(st, l.epoch).session;
      r.queue == if NeedsSnapshot(s, cfg.parse(l.payload).value) && queue != [] then queue[1..] else queue
  {
    EmptyBookInv();
    var cur, ev := ReplayEpoch(st, l.epoch), cfg.parse(l.payload).value.(appliedTime := l.ts);
    NeedIsPending(cur.session, ev);
    TakenByDiff(cfg, cur, queue, l, ev);
  }

  lemma TakenByDiff(cfg: Settings, st: ReplaySymbol, queue: seq<DepthEvent>, l: ReplayLine, ev: DepthEvent)
    ensures var wants := WantsSnapshot(OnDiff(st.session, ev).session, DiffOutcome(st.session, ev));
      ReplayDiff(cfg, st, queue, l, ev).queue == if wants && queue != [] then queue[1..] else queue
  {
  }

  // ---- Times ----

  /** Seconds and nanoseconds that make up the milliseconds. */
  predicate IsTimeOf(ts: Timestamp, ms: int) {
    0 <= ts.tnsec < 1000000000 && ts.tsec * 1000000000 + ts.tnsec == ms * 1000000
  }

  lemma MillisecondsAreKept(ms: int)
    requires ms > 0
    ensures IsTimeOf(MsToTimestamp(ms), ms)
  {
    var q, r := ms / 1000, ms % 1000;
    assert ms == q * 1000 + r;
  }

  /** The event time of a message, when the capture goes by event times and the message has one. */
  function EventTime(cfg: Settings, f: Frame): int {
    if !cfg.eventTime then 0
    else if (f.kind == DepthDiff || f.kind == Depth5) && f.symbol in cfg.symbols then
      if cfg.parse(f.data).Some? then cfg.parse(f.data).value.eventTimeMs else 0
    else cfg.tradeTimeMs(f.data)
  }

  /** A message is stamped with its event time when it has one, otherwise with the time it came. */
  lemma StampIsEventTime(cfg: Settings, f: Frame)
    ensures if EventTime(cfg, f) > 0 then IsTimeOf(LiveStamp(cfg, f), EventTime(cfg, f))
            else LiveStamp(cfg, f) == f.recv
  {
    if EventTime(cfg, f) > 0 {
      MillisecondsAreKept(EventTime(cfg, f));
    }
  }

  /** A diff row carries the stamp of its message. */
  lemma AppliedDiffIsStamped(cfg: Settings, st: LiveSymbol, f: Frame)
    requires SessionInv(st.session) && f.kind.DepthDiff? && cfg.parse(f.data).Some?
    requires var s, ev := LiveEpoch(st, f.epoch).session, cfg.parse(f.data).value;
      IsLive(s) && s.book.lastId < ev.finalId && MayFollow(s.venue, s.book.lastId, s.book.started, ev)
    ensures var rows := LiveHandle(cfg, st, f).rows;
      |rows| == 1 && rows[0].kind == 'D' && rows[0].ts == LiveStamp(cfg, f) && rows[0].seqNo == st.obSeq + 1
  {
    EmptyBookInv();
    var cur := LiveEpoch(st, f.epoch);
    var ev := cfg.parse(f.data).value.(appliedTime := LiveStamp(cfg, f));
    LiveDiffIsDecided(cur.session, ev);
    EmitsApplied(cfg, cur, f, ev);
  }

  lemma EmitsApplied(cfg: Settings, st: LiveSymbol, f: Frame, ev: DepthEvent)
    requires DiffOutcome(st.session, ev) == Outcome.Applied && IsLive(OnDiff(st.session, ev).session)
    ensures var rows := LiveDiff(cfg, st, f, ev).rows;
      |rows| == 1 && rows[0].kind == 'D' && rows[0].ts == ev.appliedTime && rows[0].seqNo == st.obSeq + 1
  {
  }
}
