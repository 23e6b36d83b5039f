/** A live capture of many symbols and the replay of what it recorded, on records. Replay writes the
    rows of the capture and one more for every trade whose symbol it misreads. */
module LogReplay {
  import opened MarketTypes
  import opened Text
  import opened Capture

  datatype TaggedRow = TaggedRow(symbol: string, row: ObRow)

  function Tag(symbol: string, rows: seq<ObRow>): seq<TaggedRow> {
    seq(|rows|, i requires 0 <= i < |rows| => TaggedRow(symbol, rows[i]))
  }

  // ---- The live run ----

  datatype MdRecord = MdRecord(
    ts: Timestamp, kind: StreamKind, epoch: Uint64, connSeq: nat, symbol: string, payload: string)

  /** Everything a run leaves behind from some point on. */
  datatype LiveLog = LiveLog(records: seq<MdRecord>, snaps: seq<SnapRecord>, rows: seq<TaggedRow>, failed: bool)

  function RecordOf(cfg: Settings, f: Frame): MdRecord {
    MdRecord(LiveStamp(cfg, f), f.kind, f.epoch, f.connSeq, f.symbol, f.data)
  }

  function OptionSeq<T>(o: Option<T>): seq<T> {
    if o.Some? then [o.value] else []
  }

  type LiveMap = map<string, LiveSymbol>

  ghost function LiveRun(cfg: Settings, m: LiveMap, frames: seq<Frame>): LiveLog {
    if frames == [] then LiveLog([], [], [], false)
    else
      var f := frames[0];
      if f.symbol !in m then
        var r := LiveRun(cfg, m, frames[1..]);
        r.(records := [RecordOf(cfg, f)] + r.records)
      else
        var t := LiveHandle(cfg, m[f.symbol], f);
        var r := LiveRun(cfg, m[f.symbol := t.state], frames[1..]);
        LiveLog([RecordOf(cfg, f)] + r.records, OptionSeq(t.snap) + r.snaps, Tag(f.symbol, t.rows) + r.rows,
                t.failed || r.failed)
  }

  function FreshSymbols(cfg: Settings): LiveMap {
    map s | s in cfg.symbols :: NewLive(cfg.venue)
  }

  // ---- The replay run ----

  type ReplayMap = map<string, ReplaySymbol>

  /** The recorded snapshots not yet used, symbol by symbol. */
  type Queues = map<string, seq<DepthEvent>>

  function QueueOf(q: Queues, symbol: string): seq<DepthEvent> {
    if symbol in q then q[symbol] else []
  }

  function StateOf(cfg: Settings, st: ReplayMap, symbol: string): ReplaySymbol {
    if symbol in st then st[symbol] else NewReplay(cfg.venue)
  }

  ghost function ReplayRun(
      cfg: Settings, sidecar: bool, st: ReplayMap, q: Queues, lines: seq<ReplayLine>): seq<TaggedRow>
    decreases |lines|
  {
    if lines == [] then []
    else
      var l := lines[0];
      var t := ReplayHandle(cfg, sidecar, StateOf(cfg, st, l.symbol), QueueOf(q, l.symbol), l);
      Tag(l.symbol, t.rows) + ReplayRun(cfg, sidecar, st[l.symbol := t.state], q[l.symbol := t.queue], lines[1..])
  }

  /** The rows of the given symbols. */
  function Keep(symbols: set<string>, rows: seq<TaggedRow>): seq<TaggedRow> {
    if rows == [] then []
    else (if rows[0].symbol in symbols then [rows[0]] else []) + Keep(symbols, rows[1..])
  }

  lemma {:induction false} KeepConcat(symbols: set<string>, a: seq<TaggedRow>, b: seq<TaggedRow>)
    ensures Keep(symbols, a + b) == Keep(symbols, a) + Keep(symbols, b)
  {
    if a == [] {
      assert a + b == b;
    } else {
      var now := if a[0].symbol in symbols then [a[0]] else [];
      assert (a + b)[0] == a[0] && (a + b)[1..] == a[1..] + b;
      KeepConcat(symbols, a[1..], b);
      Assoc(now, Keep(symbols, a[1..]), Keep(symbols, b));
    }
  }

  lemma {:induction false} KeepTagged(symbols: set<string>, symbol: string, rows: seq<ObRow>)
    ensures Keep(symbols, Tag(symbol, rows)) == if symbol in symbols then Tag(symbol, rows) else []
  {
    if rows != [] {
      assert Tag(symbol, rows)[1..] == Tag(symbol, rows[1..]);
      KeepTagged(symbols, symbol, rows[1..]);
      assert Tag(symbol, rows) == [Tag(symbol, rows)[0]] + Tag(symbol, rows[1..]);
    }
  }

  // ---- Simulation on records ----

  /** The recorded snapshots of one symbol that parse, in order. */
  function Bodies(cfg: Settings, symbol: string, snaps: seq<SnapRecord>): seq<DepthEvent> {
    if snaps == [] then []
    else BodyOf(cfg, symbol, snaps[0]) + Bodies(cfg, symbol, snaps[1..])
  }

  function BodyOf(cfg: Settings, symbol: string, r: SnapRecord): seq<DepthEvent> {
    if r.symbol == symbol then OptionSeq(cfg.parse(r.body)) else []
  }

  lemma {:induction false} BodiesConcat(cfg: Settings, symbol: string, a: seq<SnapRecord>, b: seq<SnapRecord>)
    ensures Bodies(cfg, symbol, a + b) == Bodies(cfg, symbol, a) + Bodies(cfg, symbol, b)
  {
    if a == [] {
      assert a + b == b;
    } else {
      assert (a + b)[1..] == a[1..] + b;
      BodiesConcat(cfg, symbol, a[1..], b);
    }
  }

  /** Connection epochs never decrease and start at `lo` or later. */
  ghost predicate EpochsGrow(frames: seq<Frame>, lo: Uint64) {
    && (forall i :: 0 <= i < |frames| ==> lo <= frames[i].epoch)
    && (forall i, j :: 0 <= i < j < |frames| ==> frames[i].epoch <= frames[j].epoch)
  }

  ghost predicate AllFollow(cfg: Settings, m: LiveMap, st: ReplayMap, lo: Uint64) {
    && m.Keys == cfg.symbols
    && forall s :: s in cfg.symbols ==>
        Follows(cfg.venue, m[s], StateOf(cfg, st, s)) && EpochsUpTo(StateOf(cfg, st, s), lo)
  }

  ghost predicate Stocked(cfg: Settings, q: Queues, snaps: seq<SnapRecord>) {
    forall s :: s in cfg.symbols ==> QueueOf(q, s) == Bodies(cfg, s, snaps)
  }

  // ---- What replay reads ----

  /** The symbol column is written as it is: of a symbol with commas replay reads the text before the
      first one, and takes the text between the first two for the payload. */
  function SymbolRead(f: Frame): string {
    FirstPiece(f.symbol)
  }

  function PayloadRead(f: Frame): string {
    var c := CutAt(f.symbol, ',');
    if c.NotFound? then f.data else FirstPiece(c.after)
  }

  function FirstPiece(s: string): string {
    var c := CutAt(s, ',');
    if c.NotFound? then s else c.before
  }

  function LineRead(cfg: Settings, f: Frame): ReplayLine {
    LineOf(cfg, f).(symbol := SymbolRead(f), payload := PayloadRead(f))
  }

  function LinesRead(cfg: Settings, frames: seq<Frame>): seq<ReplayLine> {
    seq(|frames|, i requires 0 <= i < |frames| => LineRead(cfg, frames[i]))
  }

  /** What is taken for the payload of a message with a comma in its symbol does not parse. */
  predicate Quiet(cfg: Settings, f: Frame) {
    ',' in f.symbol ==> cfg.parse(PayloadRead(f)).None?
  }

  /** The list of symbols is given separated by commas. */
  predicate CommaFree(cfg: Settings) {
    forall s :: s in cfg.symbols ==> ',' !in s
  }

  /** A trade that replay takes for one of another symbol, whose book is ready when it arrives. */
  predicate Stray(cfg: Settings, m: LiveMap, f: Frame) {
    && f.kind.Trade? && cfg.trades && ',' in f.symbol
    && SymbolRead(f) in m && Ready(LiveEpoch(m[SymbolRead(f)], f.epoch).session)
  }

  ghost function After(cfg: Settings, m: LiveMap, f: Frame): LiveMap {
    if f.symbol in m then m[f.symbol := LiveHandle(cfg, m[f.symbol], f).state] else m
  }

  /** How many trades of a capture replay misplaces. */
  ghost function StrayTrades(cfg: Settings, m: LiveMap, frames: seq<Frame>): nat {
    if frames == [] then 0
    else (if Stray(cfg, m, frames[0]) then 1 else 0) + StrayTrades(cfg, After(cfg, m, frames[0]), frames[1..])
  }

  // ---- The simulation ----

  /** Live and replay have written as many rows for every symbol. */
  ghost predicate SameCounts(cfg: Settings, m: LiveMap, st: ReplayMap)
    requires m.Keys == cfg.symbols
  {
    forall s :: s in cfg.symbols ==> m[s].obSeq == StateOf(cfg, st, s).seqNo
  }

  /** Replay writes the rows of the live run and one more for every stray trade, so with none, and
      from the same counts, it writes the same rows. */
  lemma {:induction false} ReplayFollowsLive(
      cfg: Settings, m: LiveMap, frames: seq<Frame>, st: ReplayMap, q: Queues, lo: Uint64)
    requires AllFollow(cfg, m, st, lo) && EpochsGrow(frames, lo) && CommaFree(cfg)
    requires forall f :: f in frames ==> Quiet(cfg, f)
    requires !LiveRun(cfg, m, frames).failed
    requires Stocked(cfg, q, LiveRun(cfg, m, frames).snaps)
    ensures var rows := Keep(cfg.symbols, ReplayRun(cfg, true, st, q, LinesRead(cfg, frames)));
      && |rows| == |LiveRun(cfg, m, frames).rows| + StrayTrades(cfg, m, frames)
      && (StrayTrades(cfg, m, frames) == 0 && SameCounts(cfg, m, st) ==> rows == LiveRun(cfg, m, frames).rows)
    decreases |frames|
  {
    if frames != [] {
      var f, rest := frames[0], frames[1..];
      var l := LineRead(cfg, f);
      var r := ReplayHandle(cfg, true, StateOf(cfg, st, l.symbol), QueueOf(q, l.symbol), l);
      var st', q' := st[l.symbol := r.state], q[l.symbol := r.queue];
      assert LinesRead(cfg, frames) == [l] + LinesRead(cfg, rest);
      KeepFirstLine(cfg, st, q, l, LinesRead(cfg, rest));
      assert EpochsGrow(rest, f.epoch);
      RowsOfFirst(cfg, m, frames);
      OneMessage(cfg, m, f, rest, st, q, lo);
      ReplayFollowsLive(cfg, After(cfg, m, f), rest, st', q', f.epoch);
    }
  }

  ghost function RowsOf(cfg: Settings, m: LiveMap, f: Frame): seq<ObRow> {
    if f.symbol in m then LiveHandle(cfg, m[f.symbol], f).rows else []
  }

  ghost function SnapsOf(cfg: Settings, m: LiveMap, f: Frame): seq<SnapRecord> {
    if f.symbol in m then OptionSeq(LiveHandle(cfg, m[f.symbol], f).snap) else []
  }

  lemma RowsOfFirst(cfg: Settings, m: LiveMap, frames: seq<Frame>)
    requires frames != []
    ensures var f := frames[0];
            var run, later := LiveRun(cfg, m, frames), LiveRun(cfg, After(cfg, m, f), frames[1..]);
      && run.rows == Tag(f.symbol, RowsOf(cfg, m, f)) + later.rows
      && run.snaps == SnapsOf(cfg, m, f) + later.snaps
      && (!run.failed ==> !later.failed && (f.symbol in m ==> !LiveHandle(cfg, m[f.symbol], f).failed))
  {
  }

  /** What one message does to the relation between live and replay. */
  ghost predicate Goes(cfg: Settings, m: LiveMap, f: Frame, st: ReplayMap, r: ReplayTurn)
    requires m.Keys == cfg.symbols
  {
    var kept := if SymbolRead(f) in cfg.symbols then Tag(SymbolRead(f), r.rows) else [];
    var rows := Tag(f.symbol, RowsOf(cfg, m, f));
    && |kept| == |rows| + (if Stray(cfg, m, f) then 1 else 0)
    && (SameCounts(cfg, m, st) && !Stray(cfg, m, f) ==>
          kept == rows && SameCounts(cfg, After(cfg, m, f), st[SymbolRead(f) := r.state]))
  }

  lemma OneMessage(
      cfg: Settings, m: LiveMap, f: Frame, rest: seq<Frame>, st: ReplayMap, q: Queues, lo: Uint64)
    requires AllFollow(cfg, m, st, lo) && lo <= f.epoch && CommaFree(cfg) && Quiet(cfg, f)
    requires f.symbol in m ==> !LiveHandle(cfg, m[f.symbol], f).failed
    requires Stocked(cfg, q, SnapsOf(cfg, m, f) + LiveRun(cfg, After(cfg, m, f), rest).snaps)
    ensures var l := LineRead(cfg, f);
            var r := ReplayHandle(cfg, true, StateOf(cfg, st, l.symbol), QueueOf(q, l.symbol), l);
      && AllFollow(cfg, After(cfg, m, f), st[l.symbol := r.state], f.epoch)
      && Stocked(cfg, q[l.symbol := r.queue], LiveRun(cfg, After(cfg, m, f), rest).snaps)
      && Goes(cfg, m, f, st, r)
  {
    var later := LiveRun(cfg, After(cfg, m, f), rest).snaps;
    if f.symbol in m {
      KnownTurn(cfg, m, f, later, st, q, lo);
    } else {
      assert [] + later == later;
      OtherTurn(cfg, m, f, later, st, q, lo);
    }
  }

  /** A message of a symbol that is not configured. */
  lemma OtherTurn(
      cfg: Settings, m: LiveMap, f: Frame, later: seq<SnapRecord>, st: ReplayMap, q: Queues, lo: Uint64)
    requires AllFollow(cfg, m, st, lo) && lo <= f.epoch && Quiet(cfg, f)
    requires f.symbol !in m && Stocked(cfg, q, later)
    ensures var l := LineRead(cfg, f);
            var r := ReplayHandle(cfg, true, StateOf(cfg, st, l.symbol), QueueOf(q, l.symbol), l);
      && AllFollow(cfg, m, st[l.symbol := r.state], f.epoch)
      && Stocked(cfg, q[l.symbol := r.queue], later)
      && Goes(cfg, m, f, st, r)
  {
    var l := LineRead(cfg, f);
    var rep, queue := StateOf(cfg, st, l.symbol), QueueOf(q, l.symbol);
    var r := ReplayHandle(cfg, true, rep, queue, l);
    if l.symbol in m {
      CutParts(f.symbol, ',');
      StrayTurn(cfg, m[l.symbol], rep, queue, l);
      StrayGoes(cfg, m, f, later, st, q, lo, r);
    } else {
      UnknownGoes(cfg, m, f, later, st, q, lo, r);
    }
  }

  lemma StrayGoes(
      cfg: Settings, m: LiveMap, f: Frame, later: seq<SnapRecord>, st: ReplayMap, q: Queues,
      lo: Uint64, r: ReplayTurn)
    requires AllFollow(cfg, m, st, lo) && lo <= f.epoch && Stocked(cfg, q, later)
    requires f.symbol !in m && SymbolRead(f) in m
    requires Follows(cfg.venue, m[SymbolRead(f)], r.state) && EpochsUpTo(r.state, f.epoch)
    requires r.queue == QueueOf(q, SymbolRead(f))
    requires r.state.seqNo == StateOf(cfg, st, SymbolRead(f)).seqNo + |r.rows|
    requires |r.rows| == if Stray(cfg, m, f) then 1 else 0
    ensures AllFollow(cfg, m, st[SymbolRead(f) := r.state], f.epoch)
    ensures Stocked(cfg, q[SymbolRead(f) := r.queue], later)
    ensures Goes(cfg, m, f, st, r)
  {
    var s := SymbolRead(f);
    OthersFollow(cfg, m, st, lo, s, f.epoch, m[s], r.state);
    assert m[s := m[s]] == m;
    StrayRows(cfg, m, f, st, r);
  }

  lemma StrayRows(cfg: Settings, m: LiveMap, f: Frame, st: ReplayMap, r: ReplayTurn)
    requires m.Keys == cfg.symbols && f.symbol !in m && SymbolRead(f) in m
    requires r.state.seqNo == StateOf(cfg, st, SymbolRead(f)).seqNo + |r.rows|
    requires |r.rows| == if Stray(cfg, m, f) then 1 else 0
    ensures Goes(cfg, m, f, st, r)
  {
  }

  lemma UnknownGoes(
      cfg: Settings, m: LiveMap, f: Frame, later: seq<SnapRecord>, st: ReplayMap, q: Queues,
      lo: Uint64, r: ReplayTurn)
    requires AllFollow(cfg, m, st, lo) && lo <= f.epoch && Stocked(cfg, q, later)
    requires f.symbol !in m && SymbolRead(f) !in m
    ensures AllFollow(cfg, m, st[SymbolRead(f) := r.state], f.epoch)
    ensures Stocked(cfg, q[SymbolRead(f) := r.queue], later)
    ensures Goes(cfg, m, f, st, r)
  {
  }

  lemma KeepFirstLine(cfg: Settings, st: ReplayMap, q: Queues, l: ReplayLine, rest: seq<ReplayLine>)
    ensures var r := ReplayHandle(cfg, true, StateOf(cfg, st, l.symbol), QueueOf(q, l.symbol), l);
            var later := ReplayRun(cfg, true, st[l.symbol := r.state], q[l.symbol := r.queue], rest);
      Keep(cfg.symbols, ReplayRun(cfg, true, st, q, [l] + rest)) ==
      (if l.symbol in cfg.symbols then Tag(l.symbol, r.rows) else []) + Keep(cfg.symbols, later)
  {
    var r := ReplayHandle(cfg, true, StateOf(cfg, st, l.symbol), QueueOf(q, l.symbol), l);
    assert ([l] + rest)[1..] == rest;
    KeepConcat(cfg.symbols, Tag(l.symbol, r.rows),
               ReplayRun(cfg, true, st[l.symbol := r.state], q[l.symbol := r.queue], rest));
    KeepTagged(cfg.symbols, l.symbol, r.rows);
  }

  lemma KnownTurn(
      cfg: Settings, m: LiveMap, f: Frame, later: seq<SnapRecord>, st: ReplayMap, q: Queues, lo: Uint64)
    requires AllFollow(cfg, m, st, lo) && lo <= f.epoch && f.symbol in m && ',' !in f.symbol
    requires !LiveHandle(cfg, m[f.symbol], f).failed
    requires Stocked(cfg, q, SnapsOf(cfg, m, f) + later)
    ensures var l := LineRead(cfg, f);
            var r := ReplayHandle(cfg, true, StateOf(cfg, st, l.symbol), QueueOf(q, l.symbol), l);
      && AllFollow(cfg, After(cfg, m, f), st[l.symbol := r.state], f.epoch)
      && Stocked(cfg, q[l.symbol := r.queue], later)
      && Goes(cfg, m, f, st, r)
  {
    NoCut(f.symbol, ',');
    assert LineRead(cfg, f) == LineOf(cfg, f);
    var t := LiveHandle(cfg, m[f.symbol], f);
    RecordedWasFetched(cfg, m[f.symbol], f);
    RecordedIsNext(cfg, m[f.symbol], f, later, q);
    TurnFollows(cfg, m[f.symbol], StateOf(cfg, st, f.symbol), f, Bodies(cfg, f.symbol, later));
    var r := ReplayHandle(cfg, true, StateOf(cfg, st, f.symbol), QueueOf(q, f.symbol), LineOf(cfg, f));
    KnownGoes(cfg, m, f, later, st, q, lo, t, r);
    KnownRows(cfg, m, f, st, t, r);
  }

  lemma KnownRows(cfg: Settings, m: LiveMap, f: Frame, st: ReplayMap, t: LiveTurn, r: ReplayTurn)
    requires m.Keys == cfg.symbols && f.symbol in m && ',' !in f.symbol && SymbolRead(f) == f.symbol
    requires t == LiveHandle(cfg, m[f.symbol], f) && |r.rows| == |t.rows|
    requires m[f.symbol].obSeq == StateOf(cfg, st, f.symbol).seqNo ==>
      r.rows == t.rows && t.state.obSeq == r.state.seqNo
    ensures Goes(cfg, m, f, st, r)
  {
    assert RowsOf(cfg, m, f) == t.rows && After(cfg, m, f) == m[f.symbol := t.state];
  }

  /** The snapshot a turn recorded is the next one in its symbol's queue. */
  lemma RecordedIsNext(cfg: Settings, st: LiveSymbol, f: Frame, later: seq<SnapRecord>, q: Queues)
    requires f.symbol in cfg.symbols && Stocked(cfg, q, OptionSeq(LiveHandle(cfg, st, f).snap) + later)
    requires LiveHandle(cfg, st, f).snap.Some? ==> FetchSnapshot(cfg, f.rest).Some?
    ensures QueueOf(q, f.symbol) == Recorded(cfg, LiveHandle(cfg, st, f), f) + Bodies(cfg, f.symbol, later)
  {
    SnapOfTurn(cfg, st, f);
    BodiesConcat(cfg, f.symbol, OptionSeq(LiveHandle(cfg, st, f).snap), later);
  }

  lemma KnownGoes(
      cfg: Settings, m: LiveMap, f: Frame, later: seq<SnapRecord>, st: ReplayMap, q: Queues,
      lo: Uint64, t: LiveTurn, r: ReplayTurn)
    requires AllFollow(cfg, m, st, lo) && lo <= f.epoch && f.symbol in m
    requires t == LiveHandle(cfg, m[f.symbol], f) && Stocked(cfg, q, OptionSeq(t.snap) + later)
    requires r.queue == Bodies(cfg, f.symbol, later)
    requires Follows(cfg.venue, t.state, r.state) && EpochsUpTo(r.state, f.epoch)
    ensures AllFollow(cfg, After(cfg, m, f), st[f.symbol := r.state], f.epoch)
    ensures Stocked(cfg, q[f.symbol := r.queue], later)
  {
    OthersFollow(cfg, m, st, lo, f.symbol, f.epoch, t.state, r.state);
    SnapOfTurn(cfg, m[f.symbol], f);
    OthersStocked(cfg, q, f.symbol, OptionSeq(t.snap), later, r.queue);
  }

  lemma OthersFollow(
      cfg: Settings, m: LiveMap, st: ReplayMap, lo: Uint64,
      symbol: string, epoch: Uint64, l: LiveSymbol, r: ReplaySymbol)
    requires AllFollow(cfg, m, st, lo) && lo <= epoch && symbol in m
    requires Follows(cfg.venue, l, r) && EpochsUpTo(r, epoch)
    ensures AllFollow(cfg, m[symbol := l], st[symbol := r], epoch)
  {
  }

  lemma OthersStocked(
      cfg: Settings, q: Queues, symbol: string, now: seq<SnapRecord>, later: seq<SnapRecord>, queue: seq<DepthEvent>)
    requires Stocked(cfg, q, now + later)
    requires queue == Bodies(cfg, symbol, later)
    requires forall s: string :: s != symbol ==> Bodies(cfg, s, now) == []
    ensures Stocked(cfg, q[symbol := queue], later)
  {
    forall s | s in cfg.symbols
      ensures QueueOf(q[symbol := queue], s) == Bodies(cfg, s, later)
    {
      if s != symbol {
        BodiesConcat(cfg, s, now, later);
        assert [] + Bodies(cfg, s, later) == Bodies(cfg, s, later);
      }
    }
  }

  /** A sidecar entry belongs to the message's symbol and holds the body that was parsed. */
  lemma SnapOfTurn(cfg: Settings, st: LiveSymbol, f: Frame)
    ensures var t := LiveHandle(cfg, st, f);
      && (t.snap.Some? ==>
            && t.snap.value.symbol == f.symbol
            && FetchSnapshot(cfg, f.rest).Some?
            && t.snap.value.body == f.rest.value.body)
      && Bodies(cfg, f.symbol, OptionSeq(t.snap)) == Recorded(cfg, t, f)
      && forall s: string :: s != f.symbol ==> Bodies(cfg, s, OptionSeq(t.snap)) == []
  {
    var t := LiveHandle(cfg, st, f);
    assert t.snap.Some? ==> t.snap.value.symbol == f.symbol && t.snap.value.body == f.rest.value.body;
    if t.snap.Some? {
      OneBody(cfg, t.snap.value);
    }
  }

  lemma OneBody(cfg: Settings, r: SnapRecord)
    ensures forall s: string :: Bodies(cfg, s, [r]) == BodyOf(cfg, s, r)
  {
    forall s: string ensures Bodies(cfg, s, [r]) == BodyOf(cfg, s, r) {
      assert Bodies(cfg, s, [r][1..]) == [];
    }
  }
}
