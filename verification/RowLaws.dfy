/** What the rows of every script say about the session and about the exchange: nothing is shown before a
    snapshot, an unbroken stream is shown whole, and rows show the exchange's best levels. */
module RowLaws {
  import opened MarketTypes
  import opened Books
  import opened Sessions
  import opened SessionHistory
  import opened Continuity
  import opened Exchange
  import opened Capture
  import opened RowMachine

  // ---- Nothing is shown before a snapshot ----

  /** Act `k` is a snapshot, and there is no reconnect from there to act `j`. */
  predicate IsAnchor(acts: seq<Act>, j: nat, k: nat) {
    && k <= j < |acts| && acts[k].Do? && acts[k].op.Snapshot?
    && forall i :: k <= i <= j ==> acts[i] != Do(Reconnect)
  }

  ghost predicate Anchored(acts: seq<Act>, j: nat) {
    exists k :: IsAnchor(acts, j, k)
  }

  /** Act `j` comes after a snapshot with no reconnect since; if it is not itself one, it meets a session that
      is seeded and awaits no snapshot. */
  ghost predicate MayShow(venue: Venue, acts: seq<Act>, j: nat) {
    && j < |acts|
    && Anchored(acts, j)
    && ((acts[j].Do? && acts[j].op.Snapshot?) || IsLive(SessionAt(NewSession(venue), acts, j)))
  }

  lemma AnchorLater(front: seq<Act>, act: Act, j: nat)
    requires Anchored(front, j)
    ensures Anchored(front + [act], j)
    ensures j + 1 == |front| && act != Do(Reconnect) ==> Anchored(front + [act], j + 1)
  {
    var k :| IsAnchor(front, j, k);
    var acts := front + [act];
    assert forall i :: 0 <= i < |front| ==> acts[i] == front[i];
    assert acts[|front|] == act;
    assert IsAnchor(acts, j, k);
    if j + 1 == |front| && act != Do(Reconnect) {
      assert IsAnchor(acts, j + 1, k);
    }
  }

  lemma SnapshotAnchors(front: seq<Act>, act: Act)
    requires act.Do? && act.op.Snapshot?
    ensures Anchored(front + [act], |front|)
  {
    assert IsAnchor(front + [act], |front|, |front|);
  }

  /** A seeded session has taken a snapshot since the last reconnect. */
  lemma {:induction false} SeededByASnapshot(venue: Venue, acts: seq<Act>, t: Session)
    requires t == Run(NewSession(venue), OpsOf(acts)).session && t.book.initialized
    ensures acts != [] && Anchored(acts, |acts| - 1)
  {
    if acts != [] {
      var front, act := acts[..|acts| - 1], acts[|acts| - 1];
      var before := Run(NewSession(venue), OpsOf(front)).session;
      RunMoves(NewSession(venue), OpsOf(front), act);
      SplitLast([], acts);
      if act.Do? && act.op.Snapshot? {
        SnapshotAnchors(front, act);
      } else {
        StillSeeded(before, act);
        SeededByASnapshot(venue, front, before);
        AnchorLater(front, act, |front| - 1);
      }
    }
  }

  lemma StillSeeded(t: Session, act: Act)
    requires !(act.Do? && act.op.Snapshot?) && Moved(t, act).book.initialized
    ensures t.book.initialized && act != Do(Reconnect)
  {
    if act.Do? && act.op.Diff? {
      SeedOutlivesDiff(t, act.op.ev);
    }
  }

  lemma WriterIsAnchored(front: seq<Act>, act: Act)
    requires (act.Do? && act.op.Snapshot?) ||
      (act != Do(Reconnect) && front != [] && Anchored(front, |front| - 1))
    ensures Anchored(front + [act], |front|)
  {
    if act.Do? && act.op.Snapshot? {
      SnapshotAnchors(front, act);
    } else {
      AnchorLater(front, act, |front| - 1);
    }
  }

  /** An act that writes a diff or trade row may show the book. */
  lemma WriterMayShow(venue: Venue, front: seq<Act>, act: Act, t: Session)
    requires t == Run(NewSession(venue), OpsOf(front)).session
    requires Anchored(front + [act], |front|) && ((act.Do? && act.op.Snapshot?) || IsLive(t))
    ensures MayShow(venue, front + [act], |front|)
  {
    SnocSlices(front, act);
  }

  lemma WriterIsLive(t: Session, act: Act)
    requires AppliedBy(t, act) != [] || (act.ShowBook? && IsLive(t))
    ensures (act.Do? && act.op.Snapshot?) || (IsLive(t) && act != Do(Reconnect))
  {
    if act.Do? {
      AppliesOnlyWhenLive(t, act.op);
    }
  }

  lemma MayShowLater(venue: Venue, front: seq<Act>, act: Act, j: nat)
    requires MayShow(venue, front, j)
    ensures MayShow(venue, front + [act], j)
  {
    AnchorLater(front, act, j);
    assert (front + [act])[..j] == front[..j];
  }

  /** Row `i` of a script is written by act `j`. */
  ghost predicate WrittenBy(d: Desk, id: int, acts: seq<Act>, i: nat, j: nat) {
    j < |acts| && |Play(d, id, acts[..j]).rows| <= i < |Play(d, id, acts[..j + 1]).rows|
  }

  lemma WrittenLater(d: Desk, id: int, front: seq<Act>, act: Act, i: nat, j: nat)
    requires WrittenBy(d, id, front, i, j)
    ensures WrittenBy(d, id, front + [act], i, j)
  {
    assert (front + [act])[..j] == front[..j] && (front + [act])[..j + 1] == front[..j + 1];
  }

  lemma WrittenNow(d: Desk, id: int, front: seq<Act>, act: Act, i: nat)
    requires |Play(d, id, front).rows| <= i < |Play(d, id, front + [act]).rows|
    ensures WrittenBy(d, id, front + [act], i, |front|)
  {
    SnocSlices(front, act);
  }

  lemma KindOfNewRow(d: Desk, applied: seq<AppliedDiff>, id: int, act: Act, i: nat)
    requires |d.rows| <= i < |More(d, applied, id, act)| && More(d, applied, id, act)[i].kind != 'S'
    ensures (act.Do? && applied != []) || (act.ShowBook? && IsLive(d.session))
  {
  }

  /** Every diff and trade row is written by an act that may show the book: never while a snapshot is awaited,
      and never before the first snapshot after a reconnect. */
  lemma {:induction false} RowsFollowASnapshot(venue: Venue, id: int, acts: seq<Act>, i: nat) returns (j: nat)
    requires i < |Play(NewDesk(venue), id, acts).rows| && Play(NewDesk(venue), id, acts).rows[i].kind != 'S'
    ensures WrittenBy(NewDesk(venue), id, acts, i, j) && MayShow(venue, acts, j)
  {
    var front, act, d := acts[..|acts| - 1], acts[|acts| - 1], NewDesk(venue);
    var e := Play(d, id, front);
    SplitLast([], acts);
    PlaySnoc(d, id, front, act);
    if i < |e.rows| {
      j := RowsFollowASnapshot(venue, id, front, i);
      WrittenLater(d, id, front, act, i, j);
      MayShowLater(venue, front, act, j);
    } else {
      j := |front|;
      PlayRuns(d, id, front);
      KindOfNewRow(e, AppliedBy(e.session, act), id, act, i);
      WriterIsLive(e.session, act);
      if e.session.book.initialized {
        SeededByASnapshot(venue, front, e.session);
      }
      WriterIsAnchored(front, act);
      WriterMayShow(venue, front, act, e.session);
      WrittenNow(d, id, front, act, i);
    }
  }

  // ---- An unbroken stream is shown whole ----

  function DoDiffs(evs: seq<DepthEvent>): seq<Act> {
    if evs == [] then [] else DoDiffs(evs[..|evs| - 1]) + [Do(Diff(evs[|evs| - 1]))]
  }

  lemma {:induction false} OpsOfDiffs(evs: seq<DepthEvent>)
    ensures OpsOf(DoDiffs(evs)) == Diffs(evs)
  {
    if evs != [] {
      var front, ev := evs[..|evs| - 1], evs[|evs| - 1];
      OpsOfDiffs(front);
      OpsSnoc(DoDiffs(front), Do(Diff(ev)));
      SplitLast([], evs);
      DiffsSnoc(front, ev);
    }
  }

  lemma TimesOfApplied(applied: seq<AppliedDiff>, evs: seq<DepthEvent>)
    requires Events(applied) == evs
    ensures var views := AppliedViews(applied);
      |views| == |evs| && forall i :: 0 <= i < |evs| ==> views[i].ts == evs[i].appliedTime
  {
    assert forall i :: 0 <= i < |applied| ==> Events(applied)[i] == applied[i].ev;
  }

  /** A live session shows every diff of an unbroken stream: one diff row for each, with its time. */
  lemma StreamIsShown(s: Session, id: int, evs: seq<DepthEvent>)
    requires IsLive(s) && Unbroken(s.venue, s.book.lastId, s.book.started, evs)
    ensures var views := Views('D', Play(Desk(s, []), id, DoDiffs(evs)).rows);
      |views| == |evs| && forall i :: 0 <= i < |evs| ==> views[i].ts == evs[i].appliedTime
  {
    OpsOfDiffs(evs);
    DiffRowsAreAppliedDiffs(s, id, DoDiffs(evs));
    StreamIsFollowedIff(s, evs);
    TimesOfApplied(Run(s, Diffs(evs)).applied, evs);
  }

  // ---- Rows show the exchange ----

  /** The view is the exchange's best five levels at id `n`. */
  ghost predicate ShowsExchangeAt(h: History, v: View, n: nat) {
    ShowsBestFive(v.top, BookAt(h, Bid, n), BookAt(h, Ask, n))
  }

  /** Diff rows show the exchange at their diff's final id and trade rows at the last id of the book:
      always when snapshots list the whole book, otherwise while the row stays in the zone of the
      last snapshot. */
  ghost predicate TrueToExchange(h: History, svc: Service, venue: Venue, acts: seq<Act>, rows: seq<ObRow>) {
    DiffsTrue(h, svc, venue, acts, Views('D', rows)) && TradesTrue(h, svc, venue, acts, Views('T', rows))
  }

  ghost predicate DiffsTrue(h: History, svc: Service, venue: Venue, acts: seq<Act>, views: seq<View>) {
    var s, ops := NewSession(venue), OpsOf(acts);
    var applied, zones := Run(s, ops).applied, Zones(svc, s, ops);
    && |views| == |applied| == |zones|
    && forall i :: 0 <= i < |applied| && (svc.WholeBook? || RowInZone(zones[i], applied[i].book)) ==>
        ShowsExchangeAt(h, views[i], applied[i].ev.finalId)
  }

  ghost predicate TradesTrue(h: History, svc: Service, venue: Venue, acts: seq<Act>, views: seq<View>) {
    var at := ReadyTrades(NewSession(venue), acts);
    && |views| == |at|
    && forall i :: 0 <= i < |at| ==> TradeTrue(h, svc, venue, acts, views[i], at[i])
  }

  ghost predicate TradeTrue(h: History, svc: Service, venue: Venue, acts: seq<Act>, v: View, j: nat) {
    && j <= |acts|
    && var b := SessionAt(NewSession(venue), acts, j).book;
       svc.WholeBook? || RowInZone(ZoneAfter(svc, OpsOf(acts[..j])), b) ==> ShowsExchangeAt(h, v, b.lastId)
  }

  /** Whatever the network loses, repeats or reorders, and whenever it reconnects, the rows of an
      honest script are true to the exchange. */
  lemma RowsAreTrueToExchange(h: History, svc: Service, venue: Venue, id: int, acts: seq<Act>)
    requires forall op :: op in OpsOf(acts) ==> Honest(h, svc, venue, op)
    ensures TrueToExchange(h, svc, venue, acts, Play(NewDesk(venue), id, acts).rows)
  {
    DiffRowsAreAppliedDiffs(NewSession(venue), id, acts);
    DiffsAreTrue(h, svc, venue, acts);
    EmptyBookInv();
    TradeRowsAreReadyTrades(NewSession(venue), id, acts);
    TradesAreTrue(h, svc, venue, acts, Views('T', Play(NewDesk(venue), id, acts).rows));
  }

  lemma DiffsAreTrue(h: History, svc: Service, venue: Venue, acts: seq<Act>)
    requires forall op :: op in OpsOf(acts) ==> Honest(h, svc, venue, op)
    ensures DiffsTrue(h, svc, venue, acts, AppliedViews(Run(NewSession(venue), OpsOf(acts)).applied))
  {
    ReportsShowTop(h, svc, venue, OpsOf(acts));
  }

  /** Reports in their zone, or all of them with whole snapshots, show the exchange at their final id. */
  lemma ReportsShowTop(h: History, svc: Service, venue: Venue, ops: seq<Op>)
    requires forall i :: 0 <= i < |ops| ==> Honest(h, svc, venue, ops[i])
    ensures var applied, zones := Run(NewSession(venue), ops).applied, Zones(svc, NewSession(venue), ops);
      && |zones| == |applied|
      && forall i :: 0 <= i < |applied| && (svc.WholeBook? || RowInZone(zones[i], applied[i].book)) ==>
          applied[i].book.lastId == applied[i].ev.finalId && ShowsTop(h, applied[i].book)
  {
    var applied, zones := Run(NewSession(venue), ops).applied, Zones(svc, NewSession(venue), ops);
    ZoneAgreement(h, svc, venue, ops);
    if svc.WholeBook? {
      ZonesAreWhole(NewSession(venue), ops);
      forall i | 0 <= i < |applied| ensures RowInZone(zones[i], applied[i].book) {
        assert IsWhole(zones[i]);
      }
    }
  }

  lemma TradesAreTrue(h: History, svc: Service, venue: Venue, acts: seq<Act>, views: seq<View>)
    requires forall op :: op in OpsOf(acts) ==> Honest(h, svc, venue, op)
    requires TradesShown(NewSession(venue), acts, views)
    ensures TradesTrue(h, svc, venue, acts, views)
  {
    var s := NewSession(venue);
    var at := ReadyTrades(s, acts);
    forall i | 0 <= i < |at| ensures TradeTrue(h, svc, venue, acts, views[i], at[i]) {
      assert TradeShown(s, acts, views[i], at[i]);
      TradeIsTrue(h, svc, venue, acts, views[i], at[i]);
    }
  }

  lemma TradeIsTrue(h: History, svc: Service, venue: Venue, acts: seq<Act>, v: View, j: nat)
    requires forall op :: op in OpsOf(acts) ==> Honest(h, svc, venue, op)
    requires TradeShown(NewSession(venue), acts, v, j)
    ensures TradeTrue(h, svc, venue, acts, v, j)
  {
    var ops := OpsOf(acts[..j]);
    var b := Run(NewSession(venue), ops).session.book;
    EarlierOps(acts, j);
    ZoneAgreement(h, svc, venue, ops);
    if svc.WholeBook? {
      ZonesAreWhole(NewSession(venue), ops);
    }
    EmptyBookInv();
    RunKeepsInv(NewSession(venue), ops);
    OneWayToShow(v.top, b);
  }

  lemma OneWayToShow(top: TopFive, b: Book)
    requires BookInv(b) && ShowsBook(top, b)
    ensures top == CachedTop(b)
  {
    RowShowsBestFive(b);
    OnlyTopIsShown(top, b.bids.levels, b.asks.levels);
  }

  lemma EarlierOps(acts: seq<Act>, j: nat)
    requires j <= |acts|
    ensures forall op :: op in OpsOf(acts[..j]) ==> op in OpsOf(acts)
  {
    OpsConcat(acts[..j], acts[j..]);
    assert acts[..j] + acts[j..] == acts;
  }
}
