# Verified model of the Binance order-book capture

This project models, in Dafny, how the capture program rebuilds an order book from snapshots and
sequenced diffs, emits rows from it, logs what it saw and replays the log. It proves what the program
is for: rows show the exchange's true best levels, nothing is lost or counted twice on the way to disk,
and a replay writes the rows the capture wrote.

`dafny verify dfyconfig.toml` checks everything.

## How the model is built

* **Values and objects.** `OrderBook`, `SideBook`, `BookSession`, `LiveBook` and `ReplayBook` are
  classes whose methods change fields, arrays and buffers as the source does. Each method is proved to
  compute a function of the old state (`Book`, `Session`, `LiveSymbol`, ... values); statements about
  whole runs are lemmas over those functions. Loops of the parsers are methods with invariants.
* **Both sides at once.** The bid and ask functions of `src/order_book.cpp` differ only in the
  comparison; `SideBook` has the side as a constant.
* **Hash maps** are visited in an arbitrary order (`AnyOf`), so results hold for every iteration order.
* **The exchange** is a history of absolute per-id updates; its book is the fold of that history.
  Snapshots list the whole book, or its best levels as far as the request asks for (5000 or 1000).
* **Rows.** A script of session operations, partial messages and trades, and the rows it writes, is the
  reference that both the capture and the replay are proved to follow, symbol by symbol.
* **The writer threads** are a state machine: one atomic load, store, slot access or file operation per
  step, and a schedule that picks the thread. Statements quantify over all schedules.
* **Integers.** Ids are 64-bit, with the wrap-around of `last_update_id_ + 1` and of `read_u64` written
  out. The scaled-decimal parser computes in a 128-bit subset type, so overflow would not verify. Prices
  and quantities of levels are only compared and copied; sequence numbers and counters are unbounded.
* **Inputs.** Messages arrive with their envelope split, so that a symbol has no quote in it: the
  splitter ends the stream name at its closing quote (`src/json_min.cpp:132-136`). Configured symbols
  have no comma in them: they are given separated by commas (`src/config.cpp:43`). The clock, the REST
  replies, the trade-time lookup and the instrument id of a symbol are parameters. The depth parser is a
  parameter of the live and replay runs, of which the comparison of the two asks only that it refuses the
  piece of a symbol that replay may take for a payload; the built-in one is modelled separately and does.

## Results in short

* The cache that rows are read from is *not* always the best 64 levels (`CacheCanMissBetterLevel`); an
  update keeps it so exactly when it is not the delete of a cached, hidden level while more than 64
  exist (`ApplyKeepsBestIff`). Every update keeps an invariant strong enough that the first five cached
  levels always are the best five of the map, and rows show them: the highest bids and the lowest asks.
* A live session applies every diff of an unbroken stream, drops what it already has, and on a gap keeps
  the diff and asks for a snapshot, which bridges it to the kept diffs.
* Whatever diffs are lost, repeated or reordered, a seeded book equals the exchange's book at its last
  id. With snapshots cut to the best levels, what the book holds is still right, it is complete as far
  as its snapshot reached, and rows that stay inside that reach show the exchange's best five.
* A late snapshot equals an early one; applied diffs leave no id uncovered; every received diff is
  accounted for once, and the step that let it go says why.
* In a capture, and in a replay of any text with or without a sidecar: rows are numbered without gaps,
  diff rows are the applied diffs one for one, trade rows are the trades that met a book which is seeded
  and awaits no snapshot, and no such row comes before the first snapshot of a connection.
* From the text of the market-data file and the snapshot sidecar, replay writes the rows of the capture,
  plus one for every trade whose unescaped symbol has a comma after a configured symbol whose book is
  ready. So it writes the same rows exactly when there is no such trade (`ReplayReproducesCapture`),
  and there are captures with one (`CommaInSymbolMisleadsReplay`).
* Over all interleavings the writer ring is FIFO with exclusive slots, flush and close deliver, and with
  at least two slots every schedule in which both threads keep moving finishes every command, each
  within a number of moves that depends on the capacity alone; with one slot no write ever finishes.
* The decimal parser is exact in both directions, the CSV reader inverts the CSV writer, the messages
  of both venues parse to what they say field by field, and the stream-limit check is exact.

Where code and comments differ, the code is followed: `include/config.hpp` says `shard_symbols` omits
empty subsets; the code caps the number of groups instead and returns one empty group for no symbols.

## Model

| member | source | states |
|---|---|---|
| `TopCache.VisibleIsBest` | src/order_book.cpp:84-96 | under the cache invariant the first five cached levels are exactly the best five of the full map |
| `TopCache.ApplyKeepsInv` | src/order_book.cpp:29-38 | setting or deleting any level keeps the cache invariant: the whole side cached, or at least five cached with all others worse than the fifth |
| `TopCache.UpdatesKeepInv` | src/order_book.cpp:51-54 | every list of level updates keeps the cache invariant |
| `TopCache.HiddenDeleteKeepsInv` | src/order_book.cpp:31-34 | a delete below the visible levels needs no rebuild |
| `TopCache.ReinsertIsInPlace` | src/order_book.cpp:36-37 | removing a cached price and upserting it again changes only its quantity, in place |
| `TopCache.UpsertExtendsBest` | src/order_book.cpp:124-133 | upserting a new price turns the best 64 of a map into the best 64 of the larger map |
| `TopCache.BestIsUnique` | src/order_book.cpp:146-149 | two caches that list the best n levels of a map are equal, so a rebuild cannot depend on the visiting order |
| `TopCache.BestKeepsInv` | src/order_book.cpp:146-154 | a rebuilt cache satisfies the invariant |
| `TopCache.CacheCanMissBetterLevel` | src/order_book.cpp:124-133 | with more than 64 bids, a hidden delete followed by a worse new level leaves the cache holding that level and not a better one |
| `TopCache.ApplyKeepsBestIff` | src/order_book.cpp:29-38 | from a cache that is the best 64 levels an update leads to one iff it is not the delete of a cached level below the visible ones while more than 64 levels exist |
| `Books.SideBook.RemoveCachePrice` | src/order_book.cpp:113-122 | shifts the cache down over the price and reports whether it was among the first five |
| `Books.SideBook.UpsertCache` | src/order_book.cpp:124-144 | inserts a level at its sorted place in the 64 slots, dropping the last when full, or leaves a full cache of better levels alone |
| `Books.SideBook.RebuildCache` | src/order_book.cpp:146-154 | for every visiting order the cache ends up as the sorted best min(64, n) levels |
| `Books.SideBook.Apply` | src/order_book.cpp:29-49 | one level applied to map and cache |
| `Books.SideBook.Seed` | src/order_book.cpp:16-23 | a side loaded from a snapshot: zero quantities skipped, cache rebuilt |
| `Books.SideBook.ClearCache` | src/order_book.cpp:108-111 | no level is cached and all slots are zeroed |
| `Books.OrderBook.Load` | src/order_book.cpp:13-27 | the whole book state after a snapshot, with both cache invariants |
| `Books.OrderBook.ApplySides` | src/order_book.cpp:51-54 | both sides updated, bids from bids and asks from asks, both cache invariants kept |
| `Books.OrderBook.ApplyDiffSpot` | src/order_book.cpp:56-66 | verdict and new book under the spot rules; the successor id does not overflow |
| `Books.OrderBook.ApplyDiffUsdm` | src/order_book.cpp:68-82 | verdict and new book under the USD-M rules |
| `Books.OrderBook.FillTop5` | src/order_book.cpp:84-96 | on a fresh row: the highest bids descending and the lowest asks ascending, min(5, n) of each with their quantities, all others worse than those shown, the rest zero; on any row the columns past the cache stay |
| `Books.OrderBook.Reset` | src/order_book.cpp:98-106 | the empty, unseeded book |
| `Books.SuccessorNeverWraps` | src/order_book.cpp:60-61 | wherever the successor of the last id is compared it has not wrapped |
| `Books.RowShowsBestFive` | src/order_book.cpp:84-96 | the row filled from the caches shows the best five of the full maps, stated with plain < and > on prices |
| `Books.OnlyTopIsShown` | src/order_book.cpp:84-96 | only one row shows the best five of both sides in that sense |
| `Books.LastLevelWins` | src/order_book.cpp:29-54 | after any list of updates a price holds what its last update says, zero meaning absent, and untouched prices keep their quantity |
| `Books.LastSnapshotLevelWins` | src/order_book.cpp:20-21 | of several levels at a price in a snapshot the last with a non-zero quantity counts |
| `Sessions.BookSession.Sequence` | src/book_session.cpp:5-16 | outcome, book and pending flag after sequencing one diff |
| `Sessions.BookSession.Enqueue` | src/book_session.cpp:18-28 | the diff is buffered; at the cap the backlog is dropped, counted, and the book reset |
| `Sessions.BookSession.Feed` | src/book_session.cpp:30-43 | outcome and whole new session for a diff; a gap keeps the diff |
| `Sessions.BookSession.TakeFront` | src/book_session.cpp:57-67 | one turn of the snapshot loop: stale dropped, applied reported, a gap leaves the buffer |
| `Sessions.BookSession.Seed` | src/book_session.cpp:45-69 | whole new session and the sequence of applied diffs handed to the callback, each with its book |
| `Sessions.BookSession.Invalidate` | include/book_session.hpp:47-47 | pending, unseeded, nothing buffered |
| `Sessions.DrainLeavesSuffix` | src/book_session.cpp:52-68 | after a snapshot the session is pending exactly when its buffer is non-empty, and the buffer is a suffix of what it was |
| `Sessions.RunKeepsInv` | src/book_session.cpp:5-69 | over every run: at most 65536 buffered, and a session that is not pending is seeded with an empty buffer, and every reported diff comes with a seeded book ending at its final id |
| `Sessions.DrainThenFeed` | src/book_session.cpp:30-69 | draining one more buffered diff is draining without it and then feeding it live |
| `Sessions.LateSnapshotEqualsEarly` | src/book_session.cpp:18-69 | buffering diffs within the cap and then taking the snapshot gives the same session and applied diffs as the snapshot first, gaps included |
| `Continuity.LiveDiffIsDecided` | src/order_book.cpp:56-82 | in terms of ids: a live session drops a diff that does not reach past its book, applies one that does and may follow it, and otherwise keeps it and waits |
| `Continuity.LiveDiffIsAppliedIff` | src/order_book.cpp:56-82 | a diff is applied iff it reaches past the book and starts at or before the next id (spot), or at or before the book first and then names it as predecessor (USD-M) |
| `Continuity.WaitingDiffIsKept` | src/book_session.cpp:18-28 | a waiting session keeps 65536 diffs in order; one more starts over with that diff alone and an empty book |
| `Continuity.ReconnectStartsOver` | include/book_session.hpp:47-47 | a reconnect leaves nothing of book and backlog |
| `Continuity.StreamIsFollowedIff` | src/book_session.cpp:30-43 | a live session applies a whole list of diffs, and is live at its end, iff the list is an unbroken stream from its id; otherwise it applies fewer |
| `Continuity.SnapshotBridges` | src/book_session.cpp:45-69 | after a snapshot at an id, kept diffs that reach past it and are an unbroken stream from it are all applied, and the session is live with nothing kept |
| `Exchange.DiffSideAgrees` | src/order_book.cpp:51-54 | a diff that starts no later than the book ends and lists every touched price moves a map that is right, and complete in a zone of prices, to one that is so at the diff's final id |
| `Exchange.RangeMeetsBook` | src/order_book.cpp:59-77 | an event that the continuity rules admit starts no later than the book ends |
| `Exchange.SnapshotAgrees` | src/order_book.cpp:20-21 | loading a snapshot gives a map that is right, and complete as far as the listing reaches, at the snapshot's id |
| `Exchange.PartShowsWholeIff` | src/order_book.cpp:84-96 | the best five of a part of a book are the best five of the whole iff every missing level is worse than the fifth of five |
| `Exchange.StepAgrees` | src/book_session.cpp:30-69 | every diff, snapshot and reconnect of honest input keeps book, backlog and reports in agreement with the exchange, in the zone of the last snapshot |
| `Exchange.RunAgrees` | src/book_session.cpp:30-69 | the same over every run, for every loss, repetition and order |
| `Exchange.ZoneAgreement` | src/main.cpp:99-117 | snapshots of the whole book or cut to its best levels: whatever a seeded book holds is right at its last id, it is complete in its snapshot's reach, and rows inside that reach show the exchange's best five; likewise for every reported diff at its final id |
| `Exchange.ExchangeAgreement` | src/book_session.cpp:30-69 | with whole snapshots, for any loss, repetition or order of honest diffs, a seeded book is the exchange's book at its last id and every reported row shows the exchange's best five at the diff's final id |
| `SessionHistory.AppliedExtendsEra` | src/order_book.cpp:56-82 | an applied diff extends the unbroken sequence since the snapshot |
| `SessionHistory.RunTracksEra` | src/order_book.cpp:56-82 | since the last snapshot applied final ids increase; on spot every id up to the book's lies in an applied range; on USD-M the first diff brackets the snapshot and the rest chain by pu |
| `SessionHistory.DrainAccounts` | src/book_session.cpp:57-67 | a drain gives every diff it takes one fate and leaves the rest buffered |
| `SessionHistory.EveryDiffIsAccounted` | src/book_session.cpp:18-69 | the buffer is the suffix of received diffs without a fate; applied diffs are the received ones so fated, once each and in order; stale ones were at or below the id they were checked against |
| `SessionHistory.EveryFateIsExplained` | src/book_session.cpp:5-69 | each fate was given in a step that explains it: a stale diff was checked against the id of the book, of the snapshot taken or of a diff applied after it; a discard comes from a reconnect or an overflow in that very step |
| `SessionHistory.NothingIsDiscardedQuietly` | src/book_session.cpp:18-28 | a diff is discarded only in a step that is a reconnect or overflows the buffer |
| `Capture.EpochBrings` | src/main.cpp:175-180 | at a message live can parse, live and replay reach the same session whatever unparsable messages came before |
| `Capture.TurnFollows` | src/replay.cpp:130-195 | one message: as many rows, the same ones from the same count, the same snapshots used, and replay keeps following live |
| `Capture.StrayTurn` | src/replay.cpp:130-195 | a line that live did not handle for the symbol and whose payload does not parse leaves replay following live, and adds one row iff it is an integrated trade and live's book would be ready for it |
| `CaptureLaws.NewEpochStartsOver` | src/main.cpp:175-180 | a message of another connection starts the session over, apart from the initial mark; one of the same connection changes nothing |
| `CaptureLaws.NewEpochStartsReplayOver` | src/replay.cpp:130-136 | the same in replay, which has no initial mark to confuse |
| `CaptureLaws.SnapshotIsAskedIff` | src/main.cpp:183-192 | a parsed diff asks for a snapshot iff the session waits for one or the diff leaves a gap; it fails iff there is no reply that parses, and is else recorded with time, symbol, id and text |
| `CaptureLaws.OnlyDiffsAsk` | src/main.cpp:193-214 | no other message asks for a snapshot |
| `CaptureLaws.RecordedIsTakenIff` | src/replay.cpp:144-153 | replay takes the next recorded snapshot on exactly the diffs that need one |
| `CaptureLaws.StampIsEventTime` | src/main.cpp:151-167 | a message is stamped with seconds and nanoseconds that make up its event time, when event times are asked for and it has one, else with the time it came |
| `CaptureLaws.AppliedDiffIsStamped` | src/main.cpp:183-222 | a diff that continues a live book writes exactly one diff row, with the stamp of its message and the next number |
| `CaptureObjects.LiveBook.Handle` | src/main.cpp:154-222 | the live handler for one symbol: state, rows, sidecar entry and fetch failure |
| `CaptureObjects.LiveBook.Resync` | src/main.cpp:99-127 | a snapshot is fetched and bridged, one row per applied diff; a failed fetch changes nothing |
| `CaptureObjects.LiveBook.Emit` | src/main.cpp:216-222 | exactly one row, showing the best five levels, when the book is seeded and no snapshot is awaited; otherwise none |
| `CaptureObjects.ReplayBook.Handle` | src/replay.cpp:130-195 | the replay handler for one line: state, remaining recorded snapshots and rows |
| `CaptureObjects.ReplayBook.SeedFromSidecar` | src/replay.cpp:90-102 | the next recorded snapshot is used, or nothing changes when none is left |
| `LogReplay.ReplayFollowsLive` | src/replay.cpp:106-196 | on records: replay writes the rows of the live run for all configured symbols, in order, plus one for every stray trade |
| `LogFiles.EveryMessageIsLogged` | src/main.cpp:169-170 | one market-data record per message, in order, whether or not it parses or is configured |
| `LogFiles.MdReadsBack` | src/csv_writer.cpp:112-126 | a market-data line reads back to the columns replay uses; of a symbol with commas, the text before the first one is read as symbol and the next piece as payload |
| `LogFiles.LogReadsBackIff` | src/csv_writer.cpp:112-126 | the market-data file parses back to the columns written iff every symbol is free of commas, quotes and line feeds and every payload of line feeds |
| `LogFiles.MdColumnsHold` | src/csv_writer.cpp:112-126 | what each of the nine columns of a market-data line reads back to |
| `LogFiles.SnapColumnsHold` | src/main.cpp:119-127 | what each of the five columns of a sidecar line reads back to |
| `LogFiles.UnsignedReads` | src/replay.cpp:133-133 | epochs read exactly up to 2^64 - 1, then saturate; a minus sign wraps around |
| `LogFiles.SnapsLoad` | src/replay.cpp:48-68 | the sidecar lines load into one queue per symbol, in order |
| `LogFiles.ReplayReproducesCapture` | src/replay.cpp:41-199 | from the text of both files, replay writes exactly the rows the capture wrote iff no trade is stray, and one more for each that is, when every fetch succeeded, epochs did not decrease and messages hold no line feed |
| `LogFiles.BuiltInIsQuiet` | src/json_min.cpp:207-247 | with the built-in parser no piece of a symbol is ever taken for a depth payload, so symbols with commas on depth streams do no harm |
| `LogFiles.CommaInSymbolMisleadsReplay` | src/replay.cpp:183-195 | a diff that readies the book of a configured symbol, then a trade of that symbol followed by a comma and any text: live writes no row and replay writes one |
| `RowMachine.RowsAreNumbered` | src/main.cpp:206-219 | the rows of every script are numbered 1, 2, 3, ... |
| `RowMachine.TradeRowIff` | src/main.cpp:212-222 | a trade adds exactly one trade row with its time when the book is seeded and no snapshot is awaited, and otherwise none |
| `RowMachine.RowsAreLabelled` | src/main.cpp:216-222 | every row carries the instrument id, no side, and one of the three kinds |
| `RowMachine.DiffRowsAreAppliedDiffs` | src/main.cpp:106-117 | the diff rows of every script are one for one, and in order, the applied diffs, with their timestamps and books |
| `RowMachine.TradeRowsAreReadyTrades` | src/main.cpp:212-222 | the trade rows are one for one the trades that met a book which is seeded and awaits no snapshot, and show its best five levels |
| `RowMachine.PartialRowsAreMessages` | src/main.cpp:203-211 | the partial-depth rows are the partial-depth messages, in order, column by column |
| `RowLaws.RowsAreTrueToExchange` | src/main.cpp:106-117 | diff rows of honest scripts show the exchange's best five at their diff's final id and trade rows at the book's last id: always with whole snapshots, otherwise inside the last snapshot's reach |
| `RowLaws.RowsFollowASnapshot` | src/main.cpp:216-222 | every diff and trade row is written after a snapshot with no reconnect since, and, if not by that snapshot itself, while none is awaited |
| `RowLaws.StreamIsShown` | src/main.cpp:106-117 | a live session writes one diff row for every diff of an unbroken stream, with its time |
| `RowHistory.LiveTurnWrote` | src/main.cpp:154-222 | one live message writes the rows and leaves the session of its script |
| `RowHistory.ReplayTurnWrote` | src/replay.cpp:130-195 | one replayed line writes the rows and leaves the session of its script, with or without a sidecar |
| `RowHistory.LiveWritesScript` | src/main.cpp:147-148 | in a capture of many symbols a symbol's rows are those of the script of its own messages |
| `RowHistory.ReplayWritesScript` | src/replay.cpp:106-196 | in a replay of any lines a symbol's rows are those of the script of its own lines |
| `RowHistory.CaptureRowsAreTruthful` | src/main.cpp:136-223 | every configured symbol of every capture: numbers without gaps, a diff row for each applied diff, a trade row for each trade that met a ready book, a partial row for each partial message, and no other |
| `RowHistory.ReplayRowsAreTruthful` | src/replay.cpp:76-195 | the same for every symbol in the replay of any text with any sidecar or none |
| `RowHistory.CaptureRowsFollowASnapshot` | src/main.cpp:175-222 | on the rows of a capture: no diff or trade row while a snapshot is awaited, or on a new connection before its first snapshot |
| `RowHistory.ReplayRowsFollowASnapshot` | src/replay.cpp:130-195 | the same on the rows of the replay of any text |
| `RowHistory.CaptureRowsShowTheExchange` | src/main.cpp:136-223 | end to end on the capture's rows: diff and trade rows show the exchange's best five levels |
| `RowHistory.ReplayRowsShowTheExchange` | src/replay.cpp:165-171 | the same for replay, from honest recorded snapshots or, without a sidecar, from the partial-depth messages that seed the book |
| `RingIndex.MaskIsModIffPow2` | include/spsc_ring.hpp:22-25 | masking is reduction modulo the capacity for every index iff the capacity is a power of two |
| `RingIndex.MaskedNext` | include/spsc_ring.hpp:34-35 | the masked successor of a record's slot is the next record's slot |
| `CsvSink.ProducerKeepsInv` | src/csv_writer.cpp:40-58 | every producer step keeps the invariant of ring, pcs and handshakes |
| `CsvSink.ConsumerKeepsInv` | src/csv_writer.cpp:60-76 | every consumer step keeps the invariant |
| `CsvSink.RingIsFifo` | include/spsc_ring.hpp:33-57 | on every interleaving the file is a prefix of the accepted records, and all records not yet freed, those not in the file among them, sit in consecutive slots in order, fewer than the capacity |
| `CsvSink.SlotsAreExclusive` | include/spsc_ring.hpp:33-57 | the producer never writes a slot not yet freed, nor the one being read |
| `CsvSink.HandshakeDelivers` | src/csv_writer.cpp:60-95 | a flush that can return and a closed sink leave all records written before in the file, in order and flushed; the consumer leaves only an empty ring |
| `CsvSink.FinishedCommandsDeliver` | src/csv_writer.cpp:78-95 | on the history of commands: whichever move finishes a flush or a close, all records written before are then in the file, in order and flushed; a finished write has published its record |
| `CsvSink.FinishedInOrder` | src/csv_writer.cpp:40-58 | on every interleaving the finished commands are a prefix of the commands given |
| `SinkProgress.WaitIsOver` | src/csv_writer.cpp:60-76 | on any schedule, once the consumer has moved 53 + 2 * capacity times, a waiting write has room, a waiting flush is acknowledged, and a waiting close finds the consumer gone, or the command has already finished |
| `SinkProgress.RoundFinishesOne` | src/csv_writer.cpp:40-95 | a stretch of schedule with enough moves of both threads finishes a command, unless all are finished |
| `SinkProgress.FairSchedulesFinish` | src/csv_writer.cpp:40-95 | with at least two slots, however a schedule started, as many such stretches as there are commands finish them all, with all accepted records in the file after a close |
| `SinkProgress.SinkCanAlwaysFinish` | src/csv_writer.cpp:40-95 | such schedules exist: from every reachable state some continuation finishes all commands |
| `SinkProgress.OneSlotAcceptsNothing` | include/spsc_ring.hpp:33-40 | with one slot nothing is ever accepted or written |
| `Csv.EscapeAppend` | src/csv_writer.cpp:15-20 | appends the field, quoted with its quotes doubled exactly when it holds a comma, quote, line feed or carriage return |
| `Csv.CheckQuote` | src/csv_writer.cpp:7-13 | true iff the field holds a comma, quote or line end |
| `Csv.ParseCsvLine` | src/replay.cpp:18-33 | the fields of a line |
| `Csv.LineRoundTrip` | src/replay.cpp:18-33 | parsing the comma-joined escapes of any non-empty list of fields returns the list |
| `Csv.RawColumnReadsBackIff` | src/replay.cpp:18-33 | a column written as it is, before a comma, reads back iff it holds no comma and no quote |
| `Csv.RawLineReadsBackIff` | src/csv_writer.cpp:112-126 | a line of raw columns and an escaped last one parses back iff no raw column holds a comma or a quote |
| `Csv.IntReadsBack` | src/replay.cpp:110-110 | decimal columns, read with the blanks and signs the C conversions admit, read back to the number |
| `Csv.BlanksAndSignsRead` | src/replay.cpp:110-110 | leading blanks and a plus sign change nothing, a minus sign negates |
| `Csv.LinesReadBack` | src/replay.cpp:106-107 | terminated lines without line feeds read back as lines; when one holds a line feed, more lines come back than were written |
| `Csv.UnterminatedLineReads` | src/replay.cpp:106-107 | a last line without its line feed is read too, unless it is empty |
| `Decimal.ParseScaled` | src/json_min.cpp:24-64 | accepts a text iff it is a numeral whose scaled value is a 64-bit integer, and returns exactly that integer; scales outside 0..18 are refused; no 128-bit overflow |
| `Decimal.ParseIsExact` | src/json_min.cpp:24-64 | the computed value is the denoted one, in both directions |
| `Decimal.TextSplits` | src/json_min.cpp:26-48 | a numeral is read back from its text, so no text has two readings |
| `Decimal.NumeralIff` | src/json_min.cpp:26-48 | a text is a numeral iff it holds only digits, apart from a minus in front and at most one dot, and at least one digit |
| `Decimal.ReadWhole` | src/json_min.cpp:30-37 | the integer part, or failure iff it is not digits or too large |
| `Decimal.ReadFraction` | src/json_min.cpp:38-48 | the scaled fraction, or failure iff it is not digits or has non-zero excess |
| `Decimal.Combine` | src/json_min.cpp:50-54 | the scaled magnitude, computed without 128-bit overflow |
| `DepthParser.ReadLevels` | src/json_min.cpp:96-124 | the levels, flag and stopping place of the level scanner on any text |
| `DepthParser.LevelsReadBack` | src/json_min.cpp:96-124 | the wire form of any level list is read to just past its bracket: the readable pairs in order, reported good iff all are readable |
| `DepthParser.QuoteFreeIsRefused` | src/json_min.cpp:207-247 | a text without quotes is refused |
| `DepthParser.ReadNumber` | src/json_min.cpp:84-88 | leading digits modulo 2^64 |
| `DepthParser.ParseDepth` | src/json_min.cpp:207-247 | the event of any payload text, or refusal; in bounds and terminating |
| `DepthParser.PayloadReadsBack` | src/json_min.cpp:207-247 | the wire form of any payload of numbers, strings and level arrays, in any order, parses to the effects of its members, or is refused |
| `DepthParser.BlanksDoNotMatter` | src/json_min.cpp:216-224 | blanks on either side of the colon change nothing |
| `DepthParser.DigitsReadModulo` | src/json_min.cpp:84-88 | numbers are read modulo 2^64 |
| `Messages.MessageReads` | src/json_min.cpp:207-247 | any payload, members in any order and number: accepted iff all levels are numbers that fit and it says something, and then every field holds what its key says, price and quantity at eight decimals |
| `Messages.SpotDiffReads` | src/json_min.cpp:226-246 | the text of a spot diff parses to its U, u, E, bids and asks |
| `Messages.UsdmDiffReads` | src/json_min.cpp:226-246 | the text of a futures diff parses to its U, u, pu, bids and asks, with T as time only when E is 0 |
| `Messages.SpotBookReads` | src/json_min.cpp:226-246 | the text of a spot partial-depth message or snapshot parses to its id, bids and asks |
| `Messages.UsdmBookReads` | src/json_min.cpp:226-246 | the text of a futures snapshot parses to its id, time, bids and asks |
| `Sharding.RemoveRepeats` | src/config.cpp:57-63 | the first occurrences, in the order of their places: no repeats and the same symbols |
| `Sharding.ShardSymbols` | src/config.cpp:95-103 | the groups of a round-robin deal, min(max(shards, 1), max(size, 1)) of them |
| `Sharding.DealtIsStride` | src/config.cpp:100-101 | the k-th symbol of group j is the one at position j + k * n, and the group has its exact share |
| `Sharding.EverySymbolIsDealt` | src/config.cpp:95-103 | every symbol is in its group at its place |
| `Sharding.NoSymbolIsDealtTwice` | src/config.cpp:57-58 | without repeats no symbol is in two groups or twice in one |
| `Sharding.GroupsAreEven` | src/config.cpp:95-103 | group sizes differ by at most one |
| `Sharding.LimitIsExact` | src/config.cpp:65-74 | the start-up check accepts iff no group needs more than 1024 streams |

## Left out

- Network, TLS, timers and reconnect back-off: messages and REST replies are arbitrary inputs.
- Envelope splitting, stream-name classification and symbol upper-casing: messages arrive split; would only add easy members.
- The simdjson build of the depth parser: its library is not part of this model; live and replay are compared for any parser that refuses texts without quotes.
- The depth5 mismatch counter and all other metrics, argument parsing apart from the symbol rules, file naming and opening.
- Failing writes: the file is an append-only sequence and every write succeeds; with inline writes there is nothing to interleave.
- Replay against live when a snapshot request failed, or without a sidecar: replay then takes snapshots at other points. Without a sidecar its rows are covered by `ReplayRowsAreTruthful` and `ReplayRowsShowTheExchange`, not compared with live.
- The maps of per-symbol objects in the live shard and in replay: each symbol's object is modelled as an object; the dispatch over symbols and the loop over messages or lines are functions on values, so aliasing between symbols is not captured.
- CsvSink.RingIsFifo: does not model memory effects weaker than sequentially consistent interleaving of the atomic steps.
- LogFiles.ReplayReproducesCapture: messages with line feeds are not covered; `LogReadsBackIff` and `Csv.LinesReadBack` say that their file yields more lines than were written.
- Csv.IntReadsBack: numbers too large for the C conversions of the time columns are not modelled, since the writer never produces them.
- A book whose best bid is below its best ask: the code does not enforce it.
