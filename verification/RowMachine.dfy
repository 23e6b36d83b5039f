/** A reference for the order-book rows of one symbol: a script of session operations, partial-depth
    messages and trades, and the rows it writes. Live capture and replay both write what such a
    script writes; what rows say is proved here once, for every script. */
module RowMachine {
  import opened MarketTypes
  import opened Books
  import opened Sessions
  import opened Capture
  import opened Continuity

  datatype Act = Do(op: Op) | ShowPartial(ev: DepthEvent, ts: Timestamp) | ShowBook(ts: Timestamp)

  function OpsOf(acts: seq<Act>): seq<Op> {
    if acts == [] then []
    else OpsOf(acts[..|acts| - 1]) + OpOf(acts[|acts| - 1])
  }

  function OpOf(act: Act): seq<Op> {
    if act.Do? then [act.op] else []
  }

  /** A session and the rows written so far. */
  datatype Desk = Desk(session: Session, rows: seq<ObRow>)

  function NewDesk(venue: Venue): Desk {
    Desk(NewSession(venue), [])
  }

  ghost function Moved(t: Session, act: Act): Session {
    if act.Do? then Perform(t, act.op).session else t
  }

  /** The diffs that an act makes the session apply. */
  ghost function AppliedBy(t: Session, act: Act): seq<AppliedDiff> {
    if act.Do? then Perform(t, act.op).applied else []
  }

  /** What one act writes after `n` rows: a row for every diff applied, a partial-depth message as it
      is, and the book on a trade when it is ready. */
  function ActRows(t: Session, applied: seq<AppliedDiff>, n: nat, id: int, act: Act): seq<ObRow> {
    match act
    case Do(_) => DiffRows(applied, n, id)
    case ShowPartial(ev, ts) => [PartialRow(ev, ts, n + 1, id)]
    case ShowBook(ts) => if Ready(t) then [BookRow(t.book, ts, n + 1, id, 'T')] else []
  }

  /** On a trade exactly one row is added, a trade row with that trade's time, when the book is seeded and
      no snapshot is awaited; otherwise none. */
  lemma TradeRowIff(d: Desk, id: int, ts: Timestamp)
    ensures var rows := Play1(d, id, ShowBook(ts)).rows;
      if d.session.book.initialized && !d.session.pending then
        && |rows| == |d.rows| + 1 && rows[..|d.rows|] == d.rows
        && rows[|d.rows|].kind == 'T' && rows[|d.rows|].ts == ts
      else rows == d.rows
  {
  }

  /** The rows so far and those of one more act. */
  function More(d: Desk, applied: seq<AppliedDiff>, id: int, act: Act): seq<ObRow> {
    d.rows + ActRows(d.session, applied, |d.rows|, id, act)
  }

  ghost function Play1(d: Desk, id: int, act: Act): Desk {
    Desk(Moved(d.session, act), More(d, AppliedBy(d.session, act), id, act))
  }

  ghost function Play(d: Desk, id: int, acts: seq<Act>): Desk {
    if acts == [] then d else Play1(Play(d, id, acts[..|acts| - 1]), id, acts[|acts| - 1])
  }

  // ---- Scripts in parts ----

  lemma PlaySnoc(d: Desk, id: int, front: seq<Act>, act: Act)
    ensures Play(d, id, front + [act]) == Play1(Play(d, id, front), id, act)
  {
    assert (front + [act])[..|front|] == front;
  }

  lemma PlayOne(d: Desk, id: int, act: Act)
    ensures Play(d, id, [act]) == Play1(d, id, act)
  {
    assert [act][..0] == [];
    assert Play(d, id, []) == d;
  }

  lemma {:induction false} PlayConcat(d: Desk, id: int, a: seq<Act>, b: seq<Act>)
    ensures Play(d, id, a + b) == Play(Play(d, id, a), id, b)
  {
    if b == [] {
      assert a + b == a;
    } else {
      var front, act := b[..|b| - 1], b[|b| - 1];
      PlayConcat(d, id, a, front);
      SplitLast(a, b);
      PlaySnoc(d, id, a + front, act);
    }
  }

  lemma OpsSnoc(front: seq<Act>, act: Act)
    ensures OpsOf(front + [act]) == OpsOf(front) + OpOf(act)
  {
    assert (front + [act])[..|front|] == front;
  }

  lemma OpsOne(act: Act)
    ensures OpsOf([act]) == OpOf(act) && OpsOf([]) == []
  {
    assert [act] == [] + [act];
    OpsSnoc([], act);
  }

  lemma {:induction false} OpsConcat(a: seq<Act>, b: seq<Act>)
    ensures OpsOf(a + b) == OpsOf(a) + OpsOf(b)
  {
    if b == [] {
      assert a + b == a;
    } else {
      var front, act := b[..|b| - 1], b[|b| - 1];
      OpsConcat(a, front);
      SplitLast(a, b);
      OpsSnoc(a + front, act);
      Assoc(OpsOf(a), OpsOf(front), OpOf(act));
    }
  }

  /** The session of a script is the run of its operations. */
  lemma {:induction false} PlayRuns(d: Desk, id: int, acts: seq<Act>)
    ensures Play(d, id, acts).session == Run(d.session, OpsOf(acts)).session
  {
    if acts != [] {
      var front, act := acts[..|acts| - 1], acts[|acts| - 1];
      PlayRuns(d, id, front);
      RunMoves(d.session, OpsOf(front), act);
    }
  }

  lemma RunMoves(s: Session, ops: seq<Op>, act: Act)
    ensures var r := Run(s, ops);
      Run(s, ops + OpOf(act)) == Step(Moved(r.session, act), r.applied + AppliedBy(r.session, act))
  {
    var r := Run(s, ops);
    if act.Do? {
      RunSnoc(s, ops, act.op);
    } else {
      assert ops + [] == ops && r.applied + [] == r.applied;
    }
  }

  // ---- Sequence numbers ----

  ghost predicate Numbered(rows: seq<ObRow>, from: nat) {
    forall i :: 0 <= i < |rows| ==> rows[i].seqNo == from + i + 1
  }

  lemma NumberedConcat(a: seq<ObRow>, b: seq<ObRow>)
    requires Numbered(a, 0) && Numbered(b, |a|)
    ensures Numbered(a + b, 0)
  {
    forall i | 0 <= i < |a + b| ensures (a + b)[i].seqNo == i + 1 {
      assert (a + b)[i] == if i < |a| then a[i] else b[i - |a|];
    }
  }

  lemma DiffRowsNumbered(applied: seq<AppliedDiff>, from: nat, id: int)
    ensures Numbered(DiffRows(applied, from, id), from)
  {
  }

  lemma MoreNumbered(d: Desk, applied: seq<AppliedDiff>, id: int, act: Act)
    requires Numbered(d.rows, 0)
    ensures Numbered(More(d, applied, id, act), 0)
  {
    DiffRowsNumbered(applied, |d.rows|, id);
    NumberedConcat(d.rows, ActRows(d.session, applied, |d.rows|, id, act));
  }

  lemma {:induction false} RowsAreNumbered(d: Desk, id: int, acts: seq<Act>)
    requires Numbered(d.rows, 0)
    ensures Numbered(Play(d, id, acts).rows, 0)
  {
    if acts != [] {
      var e, act := Play(d, id, acts[..|acts| - 1]), acts[|acts| - 1];
      RowsAreNumbered(d, id, acts[..|acts| - 1]);
      MoreNumbered(e, AppliedBy(e.session, act), id, act);
    }
  }

  // ---- What the rows of each kind show ----

  datatype View = View(ts: Timestamp, top: TopFive)

  /** The rows of one kind. */
  function Views(kind: char, rows: seq<ObRow>): seq<View> {
    if rows == [] then [] else ViewOf(kind, rows[0]) + Views(kind, rows[1..])
  }

  function ViewOf(kind: char, row: ObRow): seq<View> {
    if row.kind == kind then [View(row.ts, row.top)] else []
  }

  lemma {:induction false} ViewsConcat(kind: char, a: seq<ObRow>, b: seq<ObRow>)
    ensures Views(kind, a + b) == Views(kind, a) + Views(kind, b)
  {
    if a == [] {
      assert a + b == b;
    } else {
      assert (a + b)[0] == a[0] && (a + b)[1..] == a[1..] + b;
      ViewsConcat(kind, a[1..], b);
      Assoc(ViewOf(kind, a[0]), Views(kind, a[1..]), Views(kind, b));
    }
  }

  lemma OneView(kind: char, row: ObRow)
    ensures Views(kind, [row]) == ViewOf(kind, row)
  {
    assert [row][1..] == [];
    assert Views(kind, []) == [];
  }

  function AppliedViews(applied: seq<AppliedDiff>): seq<View> {
    seq(|applied|, i requires 0 <= i < |applied| => View(applied[i].ev.appliedTime, CachedTop(applied[i].book)))
  }

  lemma AppliedViewsConcat(a: seq<AppliedDiff>, b: seq<AppliedDiff>)
    ensures AppliedViews(a + b) == AppliedViews(a) + AppliedViews(b)
  {
  }

  lemma {:induction false} DiffRowsView(kind: char, applied: seq<AppliedDiff>, from: nat, id: int)
    ensures Views(kind, DiffRows(applied, from, id)) == if kind == 'D' then AppliedViews(applied) else []
    decreases |applied|
  {
    if applied != [] {
      assert DiffRows(applied, from, id)[1..] == DiffRows(applied[1..], from + 1, id);
      DiffRowsView(kind, applied[1..], from + 1, id);
      assert AppliedViews(applied) == [AppliedViews(applied)[0]] + AppliedViews(applied[1..]);
    }
  }

  lemma MoreDiffs(d: Desk, applied: seq<AppliedDiff>, id: int, act: Act)
    requires !act.Do? ==> applied == []
    ensures Views('D', More(d, applied, id, act)) == Views('D', d.rows) + AppliedViews(applied)
  {
    var n := |d.rows|;
    ViewsConcat('D', d.rows, ActRows(d.session, applied, n, id, act));
    match act {
      case Do(_) => DiffRowsView('D', applied, n, id);
      case ShowPartial(ev, ts) => OneView('D', PartialRow(ev, ts, n + 1, id));
      case ShowBook(ts) => OneView('D', BookRow(d.session.book, ts, n + 1, id, 'T'));
    }
  }

  /** The diff rows are, one for one and in order, the diffs the session applied, each with its own
      timestamp and the book it left. */
  lemma {:induction false} DiffRowsAreAppliedDiffs(s: Session, id: int, acts: seq<Act>)
    ensures Views('D', Play(Desk(s, []), id, acts).rows) == AppliedViews(Run(s, OpsOf(acts)).applied)
  {
    if acts != [] {
      var front, act := acts[..|acts| - 1], acts[|acts| - 1];
      var e, r := Play(Desk(s, []), id, front), Run(s, OpsOf(front));
      DiffRowsAreAppliedDiffs(s, id, front);
      PlayRuns(Desk(s, []), id, front);
      MoreDiffs(e, AppliedBy(r.session, act), id, act);
      AppliedViewsConcat(r.applied, AppliedBy(r.session, act));
      RunMoves(s, OpsOf(front), act);
    }
  }

  /** The positions of the trades that met a book which is seeded and awaits no snapshot. */
  ghost function ReadyTrades(s: Session, acts: seq<Act>): seq<nat> {
    if acts == [] then []
    else
      var front := acts[..|acts| - 1];
      ReadyTrades(s, front) +
      if acts[|front|].ShowBook? && IsLive(Run(s, OpsOf(front)).session) then [|front|] else []
  }

  /** The session that the act at position `j` meets. */
  ghost function SessionAt(s: Session, acts: seq<Act>, j: nat): Session
    requires j <= |acts|
  {
    Run(s, OpsOf(acts[..j])).session
  }

  /** The `i`-th trade row is for the `i`-th trade that met a ready book, and shows that book. */
  ghost predicate TradesShown(s: Session, acts: seq<Act>, views: seq<View>) {
    var at := ReadyTrades(s, acts);
    && |views| == |at|
    && forall i :: 0 <= i < |at| ==> TradeShown(s, acts, views[i], at[i])
  }

  ghost predicate TradeShown(s: Session, acts: seq<Act>, v: View, j: nat) {
    && j < |acts| && acts[j].ShowBook?
    && IsLive(SessionAt(s, acts, j))
    && v.ts == acts[j].ts
    && ShowsBook(v.top, SessionAt(s, acts, j).book)
  }

  /** The best five levels of each side of a book. */
  ghost predicate ShowsBook(top: TopFive, b: Book) {
    ShowsBestFive(top, b.bids.levels, b.asks.levels)
  }

  function TradeView(t: Session, act: Act): seq<View> {
    if act.ShowBook? && IsLive(t) then [View(act.ts, CachedTop(t.book))] else []
  }

  lemma MoreTrades(d: Desk, applied: seq<AppliedDiff>, id: int, act: Act)
    ensures Views('T', More(d, applied, id, act)) == Views('T', d.rows) + TradeView(d.session, act)
  {
    var n := |d.rows|;
    ViewsConcat('T', d.rows, ActRows(d.session, applied, n, id, act));
    match act {
      case Do(_) => DiffRowsView('T', applied, n, id);
      case ShowPartial(ev, ts) => OneView('T', PartialRow(ev, ts, n + 1, id));
      case ShowBook(ts) => OneView('T', BookRow(d.session.book, ts, n + 1, id, 'T'));
    }
  }

  lemma TradeShownLater(s: Session, front: seq<Act>, act: Act, v: View, j: nat)
    requires TradeShown(s, front, v, j)
    ensures TradeShown(s, front + [act], v, j)
  {
    assert (front + [act])[..j] == front[..j];
  }

  lemma TradeShownNow(s: Session, front: seq<Act>, act: Act, t: Session)
    requires act.ShowBook? && IsLive(t) && t == Run(s, OpsOf(front)).session
    requires ShowsBook(CachedTop(t.book), t.book)
    ensures TradeShown(s, front + [act], View(act.ts, CachedTop(t.book)), |front|)
  {
    SnocSlices(front, act);
  }

  lemma BookIsShown(s: Session, ops: seq<Op>)
    requires SessionInv(s)
    ensures var b := Run(s, ops).session.book; ShowsBook(CachedTop(b), b)
  {
    RunKeepsInv(s, ops);
    RowShowsBestFive(Run(s, ops).session.book);
  }

  lemma ReadyTradesSnoc(s: Session, front: seq<Act>, act: Act)
    ensures ReadyTrades(s, front + [act]) ==
            ReadyTrades(s, front) + if act.ShowBook? && IsLive(Run(s, OpsOf(front)).session) then [|front|] else []
  {
    assert (front + [act])[..|front|] == front;
  }

  lemma TradesShownSnoc(s: Session, front: seq<Act>, act: Act, views: seq<View>)
    requires TradesShown(s, front, views) && SessionInv(s)
    ensures TradesShown(s, front + [act], views + TradeView(Run(s, OpsOf(front)).session, act))
  {
    var at := ReadyTrades(s, front);
    ReadyTradesSnoc(s, front, act);
    forall i | 0 <= i < |at| ensures TradeShown(s, front + [act], views[i], at[i]) {
      TradeShownLater(s, front, act, views[i], at[i]);
    }
    if act.ShowBook? && IsLive(Run(s, OpsOf(front)).session) {
      BookIsShown(s, OpsOf(front));
      TradeShownNow(s, front, act, Run(s, OpsOf(front)).session);
    }
  }

  /** A trade row shows the book as it is; a book that is waiting shows nothing. */
  lemma {:induction false} TradeRowsAreReadyTrades(s: Session, id: int, acts: seq<Act>)
    requires SessionInv(s)
    ensures TradesShown(s, acts, Views('T', Play(Desk(s, []), id, acts).rows))
  {
    if acts != [] {
      var front, act := acts[..|acts| - 1], acts[|acts| - 1];
      var e := Play(Desk(s, []), id, front);
      TradeRowsAreReadyTrades(s, id, front);
      PlayRuns(Desk(s, []), id, front);
      MoreTrades(e, AppliedBy(e.session, act), id, act);
      TradesShownSnoc(s, front, act, Views('T', e.rows));
      SplitLast([], acts);
    }
  }

  function PartialMessages(acts: seq<Act>): seq<Act> {
    if acts == [] then []
    else
      var act := acts[|acts| - 1];
      PartialMessages(acts[..|acts| - 1]) + if act.ShowPartial? then [act] else []
  }

  /** The message's own first five levels of each side, with its time. */
  predicate PartialShown(act: Act, v: View) {
    && act.ShowPartial? && v.ts == act.ts
    && ShowsList(v.top.bid, v.top.bidSize, act.ev.bids)
    && ShowsList(v.top.ask, v.top.askSize, act.ev.asks)
  }

  ghost predicate PartialsShown(messages: seq<Act>, views: seq<View>) {
    |views| == |messages| && forall i :: 0 <= i < |views| ==> PartialShown(messages[i], views[i])
  }

  function PartialView(act: Act): seq<View> {
    if act.ShowPartial? then [View(act.ts, Columns(act.ev.bids, act.ev.asks))] else []
  }

  lemma MorePartials(d: Desk, applied: seq<AppliedDiff>, id: int, act: Act)
    ensures Views('S', More(d, applied, id, act)) == Views('S', d.rows) + PartialView(act)
  {
    var n := |d.rows|;
    ViewsConcat('S', d.rows, ActRows(d.session, applied, n, id, act));
    match act {
      case Do(_) => DiffRowsView('S', applied, n, id);
      case ShowPartial(ev, ts) => OneView('S', PartialRow(ev, ts, n + 1, id));
      case ShowBook(ts) => OneView('S', BookRow(d.session.book, ts, n + 1, id, 'T'));
    }
  }

  /** The partial-depth rows are the partial-depth messages, in order. */
  lemma {:induction false} PartialRowsAreMessages(s: Session, id: int, acts: seq<Act>)
    ensures PartialsShown(PartialMessages(acts), Views('S', Play(Desk(s, []), id, acts).rows))
  {
    if acts != [] {
      var e, act := Play(Desk(s, []), id, acts[..|acts| - 1]), acts[|acts| - 1];
      PartialRowsAreMessages(s, id, acts[..|acts| - 1]);
      MorePartials(e, AppliedBy(e.session, act), id, act);
      if act.ShowPartial? {
        ColumnsShowLists(act.ev.bids, act.ev.asks);
      }
    }
  }

  // ---- The columns that do not depend on the book ----

  /** Every row carries the instrument id and no side, and is a diff, a snapshot or a trade. */
  ghost predicate Labelled(rows: seq<ObRow>, id: int) {
    forall i :: 0 <= i < |rows| ==>
      rows[i].id == id && rows[i].side == 'N' && (rows[i].kind == 'D' || rows[i].kind == 'S' || rows[i].kind == 'T')
  }

  lemma MoreLabelled(d: Desk, applied: seq<AppliedDiff>, id: int, act: Act)
    requires Labelled(d.rows, id)
    ensures Labelled(More(d, applied, id, act), id)
  {
    var more := ActRows(d.session, applied, |d.rows|, id, act);
    assert Labelled(more, id);
  }

  lemma {:induction false} RowsAreLabelled(d: Desk, id: int, acts: seq<Act>)
    requires Labelled(d.rows, id)
    ensures Labelled(Play(d, id, acts).rows, id)
  {
    if acts != [] {
      var e, act := Play(d, id, acts[..|acts| - 1]), acts[|acts| - 1];
      RowsAreLabelled(d, id, acts[..|acts| - 1]);
      MoreLabelled(e, AppliedBy(e.session, act), id, act);
    }
  }

  // ---- All of it ----

  /** The `i`-th diff row is for the `i`-th applied diff, with its time and the best five levels of the book
      it left. */
  ghost predicate DiffsShown(applied: seq<AppliedDiff>, views: seq<View>) {
    && |views| == |applied|
    && forall i :: 0 <= i < |applied| ==>
        views[i].ts == applied[i].ev.appliedTime && ShowsBook(views[i].top, applied[i].book)
  }

  lemma AppliedAreShown(s: Session, ops: seq<Op>)
    requires SessionInv(s)
    ensures DiffsShown(Run(s, ops).applied, AppliedViews(Run(s, ops).applied))
  {
    var applied := Run(s, ops).applied;
    RunKeepsInv(s, ops);
    forall i | 0 <= i < |applied| ensures ShowsBook(CachedTop(applied[i].book), applied[i].book) {
      assert FaithfulReport(applied[i]);
      RowShowsBestFive(applied[i].book);
    }
  }

  /** Rows numbered from 1 without gaps and labelled, diff rows for exactly the applied diffs, trade rows
      for exactly the trades that met a seeded book awaiting no snapshot, partial rows for exactly the
      partial messages. */
  ghost predicate Truthful(venue: Venue, id: int, acts: seq<Act>, rows: seq<ObRow>) {
    var s := NewSession(venue);
    && Numbered(rows, 0) && Labelled(rows, id)
    && DiffsShown(Run(s, OpsOf(acts)).applied, Views('D', rows))
    && TradesShown(s, acts, Views('T', rows))
    && PartialsShown(PartialMessages(acts), Views('S', rows))
  }

  lemma RowsAreTruthful(venue: Venue, id: int, acts: seq<Act>)
    ensures Truthful(venue, id, acts, Play(NewDesk(venue), id, acts).rows)
  {
    var s := NewSession(venue);
    EmptyBookInv();
    RowsAreNumbered(NewDesk(venue), id, acts);
    RowsAreLabelled(NewDesk(venue), id, acts);
    DiffRowsAreAppliedDiffs(s, id, acts);
    AppliedAreShown(s, OpsOf(acts));
    TradeRowsAreReadyTrades(s, id, acts);
    PartialRowsAreMessages(s, id, acts);
  }
}
