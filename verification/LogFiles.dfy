/** The two files a capture leaves behind, as text, and the replay of those files. The main result is
    exactly when replay writes the same order-book rows as the capture did. */
module LogFiles {
  import opened MarketTypes
  import opened Text
  import opened Csv
  import opened Sessions
  import opened Capture
  import opened LogReplay
  import opened DepthParser

  // ---- The files ----

  function MdHeader(): string {
    "recv_tsec,recv_tnsec,venue," + "stream_kind,shard_id," + "conn_epoch,conn_seq," + "symbol,payload_json"
  }

  function SnapHeader(): string {
    "recv_tsec,recv_tnsec,symbol," + "lastUpdateId,payload_json"
  }

  function VenueName(v: Venue): string {
    if v.Spot? then "spot" else "usdm"
  }

  function MdCells(cfg: Settings, r: MdRecord): seq<string> {
    [FormatInt(r.ts.tsec), FormatInt(r.ts.tnsec), VenueName(cfg.venue), KindName(r.kind), FormatInt(cfg.shard),
     FormatNat(r.epoch), FormatNat(r.connSeq), r.symbol, r.payload]
  }

  function MdLine(cfg: Settings, r: MdRecord): string {
    RawJoin(MdCells(cfg, r))
  }

  function SnapCells(r: SnapRecord): seq<string> {
    [FormatInt(r.at.tsec), FormatInt(r.at.tnsec), r.symbol, FormatNat(r.lastUpdateId), r.body]
  }

  function SnapLine(r: SnapRecord): string {
    RawJoin(SnapCells(r))
  }

  function MdLines(cfg: Settings, records: seq<MdRecord>): seq<string> {
    seq(|records|, i requires 0 <= i < |records| => MdLine(cfg, records[i]))
  }

  function SnapLines(snaps: seq<SnapRecord>): seq<string> {
    seq(|snaps|, i requires 0 <= i < |snaps| => SnapLine(snaps[i]))
  }

  function MdFile(cfg: Settings, records: seq<MdRecord>): string {
    Terminated([MdHeader()] + MdLines(cfg, records))
  }

  function SnapFile(snaps: seq<SnapRecord>): string {
    Terminated([SnapHeader()] + SnapLines(snaps))
  }

  /** As strtoull does it: saturating, and wrapping around below zero. */
  function ReadUint64(s: string): Uint64 {
    var n := ReadMagnitude(s);
    if n > UINT64_MAX then UINT64_MAX
    else if IsNegative(s) && n > 0 then UINT64_BOUND - n
    else n
  }

  function ReadMdLine(line: string): Option<ReplayLine> {
    var f := ParseLine(line);
    if |f| < 9 then None
    else Some(ReplayLine(Timestamp(ReadInt(f[0]), ReadInt(f[1])), f[3], ReadUint64(f[5]), f[7], f[8]))
  }

  /** Lines after the header; empty and short ones are skipped. */
  function ReadMdLines(lines: seq<string>): seq<ReplayLine> {
    if lines == [] then []
    else (if lines[0] == "" then [] else OptionSeq(ReadMdLine(lines[0]))) + ReadMdLines(lines[1..])
  }

  function AfterHeader(lines: seq<string>): seq<string> {
    if lines == [] then [] else lines[1..]
  }

  /** Adds the snapshot recorded on one sidecar line to its symbol's queue. */
  function LoadSnapLine(cfg: Settings, q: Queues, line: string): Queues {
    var f := ParseLine(line);
    if line == "" || |f| < 5 || cfg.parse(f[4]).None? then q
    else q[f[2] := QueueOf(q, f[2]) + [cfg.parse(f[4]).value]]
  }

  function LoadSnaps(cfg: Settings, q: Queues, lines: seq<string>): Queues
    decreases |lines|
  {
    if lines == [] then q else LoadSnaps(cfg, LoadSnapLine(cfg, q, lines[0]), lines[1..])
  }

  /** Replay of a market-data file and, when there is one, its snapshot sidecar. */
  ghost function Replay(cfg: Settings, md: string, sidecar: Option<string>): seq<TaggedRow> {
    var q: Queues := if sidecar.None? then map[] else LoadSnaps(cfg, map[], AfterHeader(Lines(sidecar.value)));
    ReplayRun(cfg, sidecar.Some?, map[], q, ReadMdLines(AfterHeader(Lines(md))))
  }

  // ---- Reading the files back ----

  /** A line can be read back when its raw columns are bare and none holds a line feed. */
  predicate Clean(cells: seq<string>) {
    && cells != []
    && (forall i :: 0 <= i < |cells| - 1 ==> Bare(cells[i]))
    && (forall i :: 0 <= i < |cells| ==> OneLine(cells[i]))
  }

  lemma CleanReadsBack(cells: seq<string>)
    requires Clean(cells)
    ensures ParseLine(RawJoin(cells)) == cells && OneLine(RawJoin(cells))
  {
    RawLineReadsBackIff(cells);
    RawJoinOneLine(cells);
  }

  lemma PlainNumbers(n: int, m: nat)
    ensures Plain(FormatInt(n)) && Plain(FormatNat(m))
  {
  }

  /** What is asked of a message and of the reply to a snapshot request made for it: the envelope
      ends the stream name at its closing quote, and no part holds a line feed. */
  predicate Loggable(f: Frame) {
    && '"' !in f.symbol && OneLine(f.symbol)
    && OneLine(f.data)
    && (f.rest.Some? ==> OneLine(f.rest.value.body))
  }

  predicate CleanSnap(r: SnapRecord) {
    Bare(r.symbol) && OneLine(r.symbol) && OneLine(r.body)
  }

  lemma MdLineReadsBackIff(cfg: Settings, r: MdRecord)
    ensures ParseLine(MdLine(cfg, r)) == MdCells(cfg, r) <==> Bare(r.symbol)
  {
    var cells := MdCells(cfg, r);
    FirstColumnsArePlain(cfg, r);
    RawLineReadsBackIff(cells);
    assert cells[7] == r.symbol;
  }

  lemma MdLineIsOneLine(cfg: Settings, r: MdRecord)
    ensures OneLine(MdLine(cfg, r)) <==> OneLine(r.symbol) && OneLine(r.payload)
  {
    var cells := MdCells(cfg, r);
    FirstColumnsArePlain(cfg, r);
    RawJoinOneLine(cells);
    assert cells[7] == r.symbol && cells[8] == r.payload;
  }

  predicate Plain(s: string) {
    Bare(s) && OneLine(s)
  }

  lemma NamesArePlain(v: Venue, k: StreamKind)
    ensures Plain(VenueName(v)) && Plain(KindName(k))
  {
  }

  lemma FirstColumnsArePlain(cfg: Settings, r: MdRecord)
    ensures forall i :: 0 <= i < 7 ==> Plain(MdCells(cfg, r)[i])
  {
    PlainNumbers(r.ts.tsec, r.epoch);
    PlainNumbers(r.ts.tnsec, r.connSeq);
    PlainNumbers(cfg.shard, 0);
    NamesArePlain(cfg.venue, r.kind);
  }

  /** A logged message reads back as replay's line for it: whole when its symbol has no comma,
      otherwise with the pieces of the symbol for symbol and payload. */
  lemma MdReadsBack(cfg: Settings, f: Frame)
    requires Loggable(f)
    ensures var line := MdLine(cfg, RecordOf(cfg, f));
      line != "" && OneLine(line) && ReadMdLine(line) == Some(LineRead(cfg, f))
  {
    var r := RecordOf(cfg, f);
    MdLineIsOneLine(cfg, r);
    MdColumnsRead(cfg, f);
    IntReadsBack(r.ts.tsec);
    IntReadsBack(r.ts.tnsec);
    MagnitudeReadsBack(r.epoch);
  }

  lemma MdColumnsRead(cfg: Settings, f: Frame)
    requires Loggable(f)
    ensures var cells, read := MdCells(cfg, RecordOf(cfg, f)), ParseLine(MdLine(cfg, RecordOf(cfg, f)));
      |read| >= 9 && read[..7] == cells[..7] && read[7] == SymbolRead(f) && read[8] == PayloadRead(f)
  {
    var r := RecordOf(cfg, f);
    CutParts(f.symbol, ',');
    MdLineReadsBackIff(cfg, r);
    if ',' in f.symbol {
      var cells := MdCells(cfg, r);
      FirstColumnsArePlain(cfg, r);
      BarePrefixReads(cells, 7);
      assert cells[7..] == [f.symbol, f.data];
      assert [f.symbol, f.data][1..] == [f.data];
      assert RawJoin([f.symbol, f.data]) == f.symbol + "," + RawJoin([f.data]);
      SplitSymbolReads(f, RawJoin([f.data]));
    }
  }

  /** The pieces of a symbol with commas are read as columns of their own. */
  lemma SplitSymbolReads(f: Frame, rest: string)
    requires '"' !in f.symbol && ',' in f.symbol
    ensures var read := ParseLine(f.symbol + "," + rest);
      |read| >= 2 && read[0] == SymbolRead(f) && read[1] == PayloadRead(f)
  {
    CutParts(f.symbol, ',');
    var c := CutAt(f.symbol, ',');
    PieceReads(c.before, c.after, rest);
    FirstPieceReads(c.after, rest);
  }

  lemma FirstPieceReads(t: string, rest: string)
    requires '"' !in t
    ensures ParseLine(t + "," + rest)[0] == FirstPiece(t)
  {
    CutParts(t, ',');
    var c := CutAt(t, ',');
    if c.NotFound? {
      RawColumnReads(t, rest);
    } else {
      PieceReads(c.before, c.after, rest);
    }
  }

  lemma SnapReadsBack(cfg: Settings, q: Queues, r: SnapRecord)
    requires CleanSnap(r)
    ensures OneLine(SnapLine(r))
    ensures LoadSnapLine(cfg, q, SnapLine(r)) ==
            if cfg.parse(r.body).None? then q else q[r.symbol := QueueOf(q, r.symbol) + [cfg.parse(r.body).value]]
  {
    PlainNumbers(r.at.tsec, r.lastUpdateId);
    PlainNumbers(r.at.tnsec, 0);
    CleanReadsBack(SnapCells(r));
  }

  /** Loading the sidecar queues each symbol's recorded snapshots in order. */
  lemma {:induction false} SnapsLoad(cfg: Settings, q: Queues, snaps: seq<SnapRecord>, s: string)
    requires forall r :: r in snaps ==> CleanSnap(r)
    ensures QueueOf(LoadSnaps(cfg, q, SnapLines(snaps)), s) == QueueOf(q, s) + Bodies(cfg, s, snaps)
    decreases |snaps|
  {
    if snaps == [] {
      assert QueueOf(q, s) + [] == QueueOf(q, s);
    } else {
      var q' := LoadSnapLine(cfg, q, SnapLine(snaps[0]));
      assert SnapLines(snaps)[1..] == SnapLines(snaps[1..]);
      SnapsLoad(cfg, q', snaps[1..], s);
      OneSnapLoads(cfg, q, snaps[0], s);
      Assoc(QueueOf(q, s), BodyOf(cfg, s, snaps[0]), Bodies(cfg, s, snaps[1..]));
    }
  }

  lemma OneSnapLoads(cfg: Settings, q: Queues, r: SnapRecord, s: string)
    requires CleanSnap(r)
    ensures QueueOf(LoadSnapLine(cfg, q, SnapLine(r)), s) == QueueOf(q, s) + BodyOf(cfg, s, r)
  {
    SnapReadsBack(cfg, q, r);
  }

  function RecordsOf(cfg: Settings, frames: seq<Frame>): seq<MdRecord> {
    seq(|frames|, i requires 0 <= i < |frames| => RecordOf(cfg, frames[i]))
  }

  /** Every message is logged exactly once, in order, whatever becomes of it. */
  lemma {:induction false} EveryMessageIsLogged(cfg: Settings, m: LiveMap, frames: seq<Frame>)
    ensures LiveRun(cfg, m, frames).records == RecordsOf(cfg, frames)
    decreases |frames|
  {
    if frames != [] {
      var f := frames[0];
      EveryMessageIsLogged(cfg, After(cfg, m, f), frames[1..]);
      assert RecordsOf(cfg, frames) == [RecordOf(cfg, f)] + RecordsOf(cfg, frames[1..]);
    }
  }

  lemma FirstMdLine(cfg: Settings, frames: seq<Frame>)
    requires frames != []
    ensures MdLines(cfg, RecordsOf(cfg, frames)) ==
            [MdLine(cfg, RecordOf(cfg, frames[0]))] + MdLines(cfg, RecordsOf(cfg, frames[1..]))
    ensures LinesRead(cfg, frames) == [LineRead(cfg, frames[0])] + LinesRead(cfg, frames[1..])
  {
    var records := RecordsOf(cfg, frames);
    assert records[1..] == RecordsOf(cfg, frames[1..]);
    MdLinesCons(cfg, records);
  }

  lemma MdLinesCons(cfg: Settings, records: seq<MdRecord>)
    requires records != []
    ensures MdLines(cfg, records) == [MdLine(cfg, records[0])] + MdLines(cfg, records[1..])
  {
  }

  lemma ReadMdLinesCons(line: string, rest: seq<string>)
    requires line != ""
    ensures ReadMdLines([line] + rest) == OptionSeq(ReadMdLine(line)) + ReadMdLines(rest)
  {
    assert ([line] + rest)[1..] == rest;
  }

  lemma {:induction false} MdLinesReadBack(cfg: Settings, frames: seq<Frame>)
    requires forall i :: 0 <= i < |frames| ==> Loggable(frames[i])
    ensures ReadMdLines(MdLines(cfg, RecordsOf(cfg, frames))) == LinesRead(cfg, frames)
    decreases |frames|
  {
    if frames != [] {
      var line := MdLine(cfg, RecordOf(cfg, frames[0]));
      var rest := MdLines(cfg, RecordsOf(cfg, frames[1..]));
      MdReadsBack(cfg, frames[0]);
      MdLinesReadBack(cfg, frames[1..]);
      FirstMdLine(cfg, frames);
      ReadMdLinesCons(line, rest);
    }
  }

  /** Sidecar entries come from logged messages, so they can be read back too. */
  lemma {:induction false} SnapsAreClean(cfg: Settings, m: LiveMap, frames: seq<Frame>)
    requires CommaFree(cfg) && m.Keys == cfg.symbols
    requires forall i :: 0 <= i < |frames| ==> Loggable(frames[i])
    ensures forall r :: r in LiveRun(cfg, m, frames).snaps ==> CleanSnap(r)
    decreases |frames|
  {
    if frames != [] {
      var f := frames[0];
      assert Loggable(f);
      if f.symbol in m {
        SnapOfTurn(cfg, m[f.symbol], f);
        SnapsAreClean(cfg, m[f.symbol := LiveHandle(cfg, m[f.symbol], f).state], frames[1..]);
      } else {
        SnapsAreClean(cfg, m, frames[1..]);
      }
    }
  }

  lemma MdHeaderIsOneLine()
    ensures OneLine(MdHeader())
  {
    assert OneLine("recv_tsec,recv_tnsec,venue,") && OneLine("stream_kind,shard_id,");
    assert OneLine("conn_epoch,conn_seq,") && OneLine("symbol,payload_json");
  }

  lemma SnapHeaderIsOneLine()
    ensures OneLine(SnapHeader())
  {
    assert OneLine("recv_tsec,recv_tnsec,symbol,") && OneLine("lastUpdateId,payload_json");
  }

  predicate UnbrokenRecord(r: MdRecord) {
    OneLine(r.symbol) && OneLine(r.payload)
  }

  /** The lines of the file are the records', or there are more lines than records. */
  lemma MdFileLines(cfg: Settings, records: seq<MdRecord>)
    ensures (forall i :: 0 <= i < |records| ==> UnbrokenRecord(records[i])) ==>
      AfterHeader(Lines(MdFile(cfg, records))) == MdLines(cfg, records)
    ensures (exists i :: 0 <= i < |records| && !UnbrokenRecord(records[i])) ==>
      |AfterHeader(Lines(MdFile(cfg, records)))| > |records|
  {
    var body := MdLines(cfg, records);
    MdHeaderIsOneLine();
    LinesAfterHeader(MdHeader(), body);
    forall i | 0 <= i < |records| ensures OneLine(body[i]) <==> UnbrokenRecord(records[i]) {
      MdLineIsOneLine(cfg, records[i]);
    }
  }

  lemma LinesAfterHeader(header: string, body: seq<string>)
    requires OneLine(header)
    ensures (forall i :: 0 <= i < |body| ==> OneLine(body[i])) ==>
      AfterHeader(Lines(Terminated([header] + body))) == body
    ensures (exists i :: 0 <= i < |body| && !OneLine(body[i])) ==>
      |AfterHeader(Lines(Terminated([header] + body)))| > |body|
  {
    var all := [header] + body;
    assert all[1..] == body;
    assert forall i :: 0 <= i < |body| ==> all[i + 1] == body[i];
    LinesReadBack(all);
  }

  lemma MdFileReadsBack(cfg: Settings, frames: seq<Frame>)
    requires forall i :: 0 <= i < |frames| ==> Loggable(frames[i])
    ensures ReadMdLines(AfterHeader(Lines(MdFile(cfg, RecordsOf(cfg, frames))))) == LinesRead(cfg, frames)
  {
    MdFileLines(cfg, RecordsOf(cfg, frames));
    MdLinesReadBack(cfg, frames);
  }

  lemma SnapFileReadsBack(cfg: Settings, snaps: seq<SnapRecord>)
    requires forall r :: r in snaps ==> CleanSnap(r)
    ensures Stocked(cfg, LoadSnaps(cfg, map[], AfterHeader(Lines(SnapFile(snaps)))), snaps)
  {
    var body := SnapLines(snaps);
    forall i | 0 <= i < |snaps| ensures OneLine(body[i]) {
      SnapReadsBack(cfg, map[], snaps[i]);
    }
    SnapHeaderIsOneLine();
    LinesAfterHeader(SnapHeader(), body);
    forall s | s in cfg.symbols ensures QueueOf(LoadSnaps(cfg, map[], body), s) == Bodies(cfg, s, snaps) {
      SnapsLoad(cfg, map[], snaps, s);
      assert [] + Bodies(cfg, s, snaps) == Bodies(cfg, s, snaps);
    }
  }

  /** From the text of the two files a capture leaves behind, replay writes for the configured symbols
      the rows of the capture and one more for every stray trade: so it writes the same rows, in the
      same order, exactly when no trade is stray. Asked for: every snapshot request succeeded,
      connection epochs did not decrease, and no line feed in a message. */
  lemma ReplayReproducesCapture(cfg: Settings, frames: seq<Frame>)
    requires CommaFree(cfg)
    requires forall i :: 0 <= i < |frames| ==> Loggable(frames[i]) && Quiet(cfg, frames[i])
    requires EpochsGrow(frames, 0)
    requires !LiveRun(cfg, FreshSymbols(cfg), frames).failed
    ensures var live := LiveRun(cfg, FreshSymbols(cfg), frames);
            var rows := Keep(cfg.symbols, Replay(cfg, MdFile(cfg, live.records), Some(SnapFile(live.snaps))));
      && (rows == live.rows <==> StrayTrades(cfg, FreshSymbols(cfg), frames) == 0)
      && |rows| == |live.rows| + StrayTrades(cfg, FreshSymbols(cfg), frames)
  {
    var m := FreshSymbols(cfg);
    var live := LiveRun(cfg, m, frames);
    EveryMessageIsLogged(cfg, m, frames);
    MdFileReadsBack(cfg, frames);
    SnapsAreClean(cfg, m, frames);
    SnapFileReadsBack(cfg, live.snaps);
    FreshFollow(cfg);
    ReplayFollowsLive(cfg, m, frames, map[], LoadSnaps(cfg, map[], AfterHeader(Lines(SnapFile(live.snaps)))), 0);
  }

  lemma FreshFollow(cfg: Settings)
    ensures AllFollow(cfg, FreshSymbols(cfg), map[], 0) && SameCounts(cfg, FreshSymbols(cfg), map[])
  {
  }

  // ---- The built-in parser, and a stray trade ----

  ghost predicate BuiltIn(cfg: Settings) {
    forall t: string :: cfg.parse(t) == ParsePayload(t)
  }

  /** With the built-in parser no piece of a symbol is ever taken for a depth payload. */
  lemma BuiltInIsQuiet(cfg: Settings, f: Frame)
    requires BuiltIn(cfg) && '"' !in f.symbol
    ensures Quiet(cfg, f)
  {
    CutParts(f.symbol, ',');
    if ',' in f.symbol {
      var c := CutAt(f.symbol, ',');
      CutParts(c.after, ',');
      assert '"' !in c.after;
      QuoteFreeIsRefused(PayloadRead(f));
    }
  }

  function IdPayload(key: string, id: Uint64): string {
    PayloadText([Number(key, id)])
  }

  lemma IdPayloadReads(key: string, id: Uint64)
    requires '"' !in key && BookKey(key).None? && Meaningful(SetNumber(EmptyEvent(), key, id))
    ensures ParsePayload(IdPayload(key, id)) == Some(SetNumber(EmptyEvent(), key, id))
  {
    var fs := [Number(key, id)];
    assert fs[1..] == [];
    PayloadReadsBack(fs);
  }

  lemma IdPayloadIsOneLine(key: string, id: Uint64)
    requires OneLine(key)
    ensures OneLine(IdPayload(key, id))
  {
    PlainNumbers(0, id);
    assert FieldsThen([Number(key, id)]) == "\"" + key + "\":" + FormatNat(id) + "}";
  }

  /** A diff whose snapshot request is answered with a book that already contains it. */
  function SeedingFrame(name: string, id: Uint64): Frame {
    Frame(name, DepthDiff, IdPayload("u", id), Timestamp(0, 0), 0, 0,
          Some(RestReply(IdPayload("lastUpdateId", id), Timestamp(0, 0))))
  }

  function CommaTrade(name: string, extra: string): Frame {
    Frame(name + "," + extra, Trade, "{}", Timestamp(0, 0), 0, 1, None)
  }

  /** Two messages: a diff that makes the book of `name` ready, and a trade of a symbol that is not
      configured, `name` followed by a comma and any text. */
  function StrayExample(name: string, extra: string, id: Uint64): seq<Frame> {
    [SeedingFrame(name, id)] + [CommaTrade(name, extra)]
  }

  lemma SeedingFrameParses(cfg: Settings, name: string, id: Uint64)
    requires BuiltIn(cfg) && id > 0
    ensures var f := SeedingFrame(name, id);
      && cfg.parse(f.data) == Some(EmptyEvent().(finalId := id))
      && FetchSnapshot(cfg, f.rest) == Some(EmptyEvent().(lastUpdateId := id))
  {
    FinalIdReads(id);
    SnapshotIdReads(id);
  }

  lemma FinalIdReads(id: Uint64)
    requires id > 0
    ensures ParsePayload(IdPayload("u", id)) == Some(EmptyEvent().(finalId := id))
  {
    IdPayloadReads("u", id);
  }

  lemma SnapshotIdReads(id: Uint64)
    requires id > 0
    ensures ParsePayload(IdPayload("lastUpdateId", id)) == Some(EmptyEvent().(lastUpdateId := id))
  {
    IdPayloadReads("lastUpdateId", id);
  }

  lemma SeedingFrameSeeds(cfg: Settings, name: string, id: Uint64)
    requires BuiltIn(cfg) && id > 0
    ensures var t := LiveHandle(cfg, NewLive(cfg.venue), SeedingFrame(name, id));
      !t.failed && t.rows == [] && Ready(t.state.session) && t.state.lastEpoch == 0
  {
    SeedingFrameParses(cfg, name, id);
    var f := SeedingFrame(name, id);
    StaleDiffSeeds(cfg, f, LiveEpoch(NewLive(cfg.venue), 0),
                   EmptyEvent().(finalId := id, appliedTime := LiveStamp(cfg, f)), EmptyEvent().(lastUpdateId := id));
  }

  lemma StaleDiffSeeds(cfg: Settings, f: Frame, st: LiveSymbol, ev: DepthEvent, snap: DepthEvent)
    requires st.session == NewSession(cfg.venue) && FetchSnapshot(cfg, f.rest) == Some(snap)
    requires ev.finalId <= snap.lastUpdateId
    ensures var t := LiveDiff(cfg, st, f, ev);
      !t.failed && t.rows == [] && Ready(t.state.session) && t.state.lastEpoch == st.lastEpoch
  {
    var d := OnDiff(st.session, ev);
    assert d == Step(st.session.(buffer := [ev]), []);
    var s := Reseed(d.session, snap.bids, snap.asks, snap.lastUpdateId);
    assert s.buffer[1..] == [];
    assert Drain(s, snap.lastUpdateId) == Step(s.(buffer := []), []);
  }

  lemma ExampleIsLoggable(cfg: Settings, name: string, extra: string, id: Uint64)
    requires BuiltIn(cfg) && Plain(name) && '"' !in extra && OneLine(extra)
    ensures var frames := StrayExample(name, extra, id);
      EpochsGrow(frames, 0) && forall i :: 0 <= i < |frames| ==> Loggable(frames[i]) && Quiet(cfg, frames[i])
  {
    IdPayloadIsOneLine("u", id);
    IdPayloadIsOneLine("lastUpdateId", id);
    BuiltInIsQuiet(cfg, SeedingFrame(name, id));
    BuiltInIsQuiet(cfg, CommaTrade(name, extra));
  }

  lemma ExampleIsStray(cfg: Settings, name: string, extra: string, id: Uint64)
    requires BuiltIn(cfg) && cfg.trades && CommaFree(cfg) && name in cfg.symbols && Bare(name) && id > 0
    ensures var frames := StrayExample(name, extra, id);
            var live := LiveRun(cfg, FreshSymbols(cfg), frames);
      !live.failed && live.rows == [] && StrayTrades(cfg, FreshSymbols(cfg), frames) == 1
  {
    var m, f, x := FreshSymbols(cfg), SeedingFrame(name, id), CommaTrade(name, extra);
    SeedingFrameSeeds(cfg, name, id);
    var m' := After(cfg, m, f);
    CutText(name, ',', extra);
    assert x.symbol[|name|] == ',' && x.symbol !in cfg.symbols;
    assert SymbolRead(x) == name;
    assert ([f] + [x])[1..] == [x] && [x][1..] == [];
    assert StrayTrades(cfg, m', [x]) == 1 + StrayTrades(cfg, m', []);
    assert !Stray(cfg, m, f);
    RowsOfFirst(cfg, m, [f] + [x]);
    RowsOfFirst(cfg, m', [x]);
  }

  /** The same rows are not written for symbols with commas: live writes no row for the two messages
      of the example; replay takes the trade for one of `name` and writes one. */
  lemma CommaInSymbolMisleadsReplay(cfg: Settings, name: string, extra: string, id: Uint64)
    requires BuiltIn(cfg) && cfg.trades && CommaFree(cfg) && name in cfg.symbols && id > 0
    requires Plain(name) && '"' !in extra && OneLine(extra)
    ensures var live := LiveRun(cfg, FreshSymbols(cfg), StrayExample(name, extra, id));
      && !live.failed && live.rows == []
      && |Keep(cfg.symbols, Replay(cfg, MdFile(cfg, live.records), Some(SnapFile(live.snaps))))| == 1
  {
    ExampleIsLoggable(cfg, name, extra, id);
    ExampleIsStray(cfg, name, extra, id);
    ReplayReproducesCapture(cfg, StrayExample(name, extra, id));
  }

  /** Epochs are read as strtoull reads them: exact up to 2^64 - 1, then saturating; a minus sign wraps
      around. */
  lemma UnsignedReads(n: nat)
    ensures ReadUint64(FormatNat(n)) == Min(n, 0xFFFF_FFFF_FFFF_FFFF)
    ensures ReadUint64("-" + FormatNat(n)) ==
      if n == 0 then 0
      else if n <= 0xFFFF_FFFF_FFFF_FFFF then 0x1_0000_0000_0000_0000 - n
      else 0xFFFF_FFFF_FFFF_FFFF
  {
    MagnitudeReadsBack(n);
    assert ("-" + FormatNat(n))[1..] == FormatNat(n);
    NatReadsBack(n);
  }

  // ---- The columns of the two files ----

  /** Columns of a market-data line: time in seconds and nanoseconds, venue, kind of stream, shard, connection
      epoch, number within the connection, symbol and payload. */
  lemma MdColumnsHold(cfg: Settings, r: MdRecord)
    requires Readable(r)
    ensures var c := ParseLine(MdLine(cfg, r));
      && |c| == 9
      && ReadInt(c[0]) == r.ts.tsec && ReadInt(c[1]) == r.ts.tnsec
      && c[2] == (if cfg.venue == Spot then "spot" else "usdm")
      && c[3] == (match r.kind case DepthDiff => "depth_diff" case Depth5 => "depth5" case Trade => "trade")
      && ReadInt(c[4]) == cfg.shard
      && ReadUint64(c[5]) == r.epoch && ReadInt(c[6]) == r.connSeq
      && c[7] == r.symbol && c[8] == r.payload
  {
    MdLineReadsBackIff(cfg, r);
    IntReadsBack(r.ts.tsec);
    IntReadsBack(r.ts.tnsec);
    IntReadsBack(cfg.shard);
    MagnitudeReadsBack(r.epoch);
    MagnitudeReadsBack(r.connSeq);
  }

  /** Columns of a sidecar line: time in seconds and nanoseconds, symbol, last update id and the reply. */
  lemma SnapColumnsHold(r: SnapRecord)
    requires CleanSnap(r)
    ensures var c := ParseLine(SnapLine(r));
      && |c| == 5
      && ReadInt(c[0]) == r.at.tsec && ReadInt(c[1]) == r.at.tnsec
      && c[2] == r.symbol && ReadUint64(c[3]) == r.lastUpdateId && c[4] == r.body
  {
    PlainNumbers(r.at.tsec, r.lastUpdateId);
    PlainNumbers(r.at.tnsec, 0);
    CleanReadsBack(SnapCells(r));
    IntReadsBack(r.at.tsec);
    IntReadsBack(r.at.tnsec);
    MagnitudeReadsBack(r.lastUpdateId);
  }

  // ---- Exactly when the market-data file is readable ----

  predicate Readable(r: MdRecord) {
    Bare(r.symbol) && OneLine(r.symbol) && OneLine(r.payload)
  }

  function ParsedLines(lines: seq<string>): seq<seq<string>> {
    seq(|lines|, i requires 0 <= i < |lines| => ParseLine(lines[i]))
  }

  /** The columns that were written, line by line. */
  function MdTable(cfg: Settings, records: seq<MdRecord>): seq<seq<string>> {
    seq(|records|, i requires 0 <= i < |records| => MdCells(cfg, records[i]))
  }

  lemma TableReadsBackIff(cfg: Settings, records: seq<MdRecord>)
    ensures ParsedLines(MdLines(cfg, records)) == MdTable(cfg, records) <==>
            forall i :: 0 <= i < |records| ==> Bare(records[i].symbol)
  {
    var read, table := ParsedLines(MdLines(cfg, records)), MdTable(cfg, records);
    forall i | 0 <= i < |records| ensures read[i] == table[i] <==> Bare(records[i].symbol) {
      MdLineReadsBackIff(cfg, records[i]);
    }
  }

  /** The lines after the header parse back to the columns that were written exactly when every
      record's symbol is free of commas, quotes and line feeds and its payload of line feeds. */
  lemma LogReadsBackIff(cfg: Settings, records: seq<MdRecord>)
    ensures ParsedLines(AfterHeader(Lines(MdFile(cfg, records)))) == MdTable(cfg, records)
            <==> forall i :: 0 <= i < |records| ==> Readable(records[i])
  {
    MdFileLines(cfg, records);
    TableReadsBackIff(cfg, records);
    if i :| 0 <= i < |records| && !UnbrokenRecord(records[i]) {
      assert !Readable(records[i]);
    } else {
      assert forall i :: 0 <= i < |records| ==> UnbrokenRecord(records[i]);
    }
  }
}
