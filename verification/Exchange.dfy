/** An abstract exchange whose book is a fold of absolute per-id updates, and the proof that a
    session fed from it agrees with it, whatever diffs are lost, repeated or reordered: everywhere
    when snapshots list the whole book, and as far as they reach when they list its best levels. */
module Exchange {
  import opened MarketTypes
  import opened TopCache
  import opened Books
  import opened Sessions

  /** What one update id changes: absolute quantities, zero meaning the level is gone. */
  datatype Update = Update(bids: PriceMap, asks: PriceMap)
  {
    function Of(side: Side): PriceMap {
      if side.Bid? then bids else asks
    }
  }

  /** Update ids count from 1. */
  type History = nat -> Update

  function Qty(m: PriceMap, p: int): int {
    if p in m then m[p] else 0
  }

  predicate NoZero(m: PriceMap) {
    forall p :: p in m ==> m[p] != 0
  }

  function Overlay(m: PriceMap, u: PriceMap): PriceMap {
    map p | p in m.Keys + u.Keys && Qty(if p in u then u else m, p) != 0 :: Qty(if p in u then u else m, p)
  }

  /** The exchange's book side after update `n`. */
  ghost function BookAt(h: History, side: Side, n: nat): (m: PriceMap)
    ensures NoZero(m)
  {
    if n == 0 then map[] else Overlay(BookAt(h, side, n - 1), h(n).Of(side))
  }

  ghost predicate Touched(h: History, side: Side, lo: int, hi: nat, p: int) {
    exists n: nat :: 0 < n && lo <= n <= hi && p in h(n).Of(side)
  }

  /** Every listed level carries the exchange's quantity at `n`. */
  ghost predicate Accurate(h: History, side: Side, n: nat, ls: seq<Level>) {
    forall i :: 0 <= i < |ls| ==> ls[i].qty == Qty(BookAt(h, side, n), ls[i].price)
  }

  /** First id an event accounts for: U on spot; on USD-M everything after pu, and U itself. */
  function RangeStart(venue: Venue, ev: DepthEvent): int {
    if venue.Spot? then ev.firstId else Min(ev.firstId, ev.prevId + 1)
  }

  /** The exchange's promise for a diff: final quantities for all prices touched in its range. */
  ghost predicate Faithful(h: History, venue: Venue, ev: DepthEvent) {
    FaithfulSide(h, venue, ev, Bid) && FaithfulSide(h, venue, ev, Ask)
  }

  ghost predicate FaithfulSide(h: History, venue: Venue, ev: DepthEvent, side: Side) {
    && Accurate(h, side, ev.finalId, ev.Levels(side))
    && forall p :: Touched(h, side, RangeStart(venue, ev), ev.finalId, p) ==> Listed(ev.Levels(side), p)
  }

  /** Prices at which a book is known to be complete. */
  datatype Zone = Zone(bids: iset<int>, asks: iset<int>)

  /** What snapshots list: the whole book, or as many of the best levels as fit the request. */
  datatype Service = WholeBook | BestLevels

  /** A listing of the best levels reaches the prices that are no worse than some listed one. */
  ghost predicate Reached(svc: Service, side: Side, ls: seq<Level>, p: int) {
    svc.WholeBook? || exists i :: 0 <= i < |ls| && !Better(side, ls[i].price, p)
  }

  ghost function ReachOf(svc: Service, side: Side, ls: seq<Level>): iset<int> {
    iset p: int | Reached(svc, side, ls, p)
  }

  /** The exchange's promise for a snapshot side: every level of the book at `id` that the listing
      reaches, accurately. */
  ghost predicate Complete(h: History, svc: Service, side: Side, id: Uint64, ls: seq<Level>) {
    && Accurate(h, side, id, ls)
    && forall p :: p in ReachOf(svc, side, ls) && p in BookAt(h, side, id) ==> Listed(ls, p)
  }

  /** What the map holds is right, and inside the zone it holds everything. */
  ghost predicate SideAgrees(h: History, side: Side, zone: iset<int>, m: PriceMap, n: nat) {
    NoZero(m) && forall p :: p in zone || p in m ==> Qty(m, p) == Qty(BookAt(h, side, n), p)
  }

  ghost predicate Agrees(h: History, z: Zone, b: Book) {
    b.initialized ==>
      && SideAgrees(h, Bid, z.bids, b.bids.levels, b.lastId)
      && SideAgrees(h, Ask, z.asks, b.asks.levels, b.lastId)
  }

  // ---- Folding levels into a map ----

  lemma SameQuantities(a: PriceMap, b: PriceMap)
    requires NoZero(a) && NoZero(b)
    requires forall p :: Qty(a, p) == Qty(b, p)
    ensures a == b
  {
    forall p ensures p in a <==> p in b {
      assert Qty(a, p) == Qty(b, p);
    }
    forall p | p in a ensures a[p] == b[p] {
      assert Qty(a, p) == Qty(b, p);
    }
  }

  /** Levels that all carry the quantities of `target` move exactly their prices to it. */
  lemma {:induction false} AppliedLevels(side: Side, s: SideState, ls: seq<Level>, target: PriceMap, p: int)
    requires NoZero(s.levels)
    requires forall i :: 0 <= i < |ls| ==> ls[i].qty == Qty(target, ls[i].price)
    ensures NoZero(ApplyLevels(side, s, ls).levels)
    ensures Qty(ApplyLevels(side, s, ls).levels, p) == Qty(if Listed(ls, p) then target else s.levels, p)
  {
    if ls != [] {
      var front, l := ls[..|ls| - 1], ls[|ls| - 1];
      AppliedLevels(side, s, front, target, p);
      assert Listed(ls, p) <==> Listed(front, p) || l.price == p by { ListedSnoc(ls, p); }
    }
  }

  lemma ListedSnoc(ls: seq<Level>, p: int)
    requires ls != []
    ensures Listed(ls, p) <==> Listed(ls[..|ls| - 1], p) || ls[|ls| - 1].price == p
  {
    if Listed(ls, p) && ls[|ls| - 1].price != p {
      var i :| 0 <= i < |ls| && ls[i].price == p;
      assert ls[..|ls| - 1][i].price == p;
    }
  }

  lemma {:induction false} SeededLevels(ls: seq<Level>, target: PriceMap, p: int)
    requires forall i :: 0 <= i < |ls| ==> ls[i].qty == Qty(target, ls[i].price)
    ensures NoZero(SnapshotMap(ls))
    ensures Qty(SnapshotMap(ls), p) == if Listed(ls, p) then Qty(target, p) else 0
  {
    if ls != [] {
      SeededLevels(ls[..|ls| - 1], target, p);
      ListedSnoc(ls, p);
    }
  }

  // ---- One snapshot, one diff ----

  lemma SnapshotAgrees(h: History, svc: Service, side: Side, id: Uint64, ls: seq<Level>)
    requires Complete(h, svc, side, id, ls)
    ensures SideAgrees(h, side, ReachOf(svc, side, ls), SnapshotMap(ls), id)
  {
    var target := BookAt(h, side, id);
    forall p
      ensures NoZero(SnapshotMap(ls))
      ensures p in ReachOf(svc, side, ls) || p in SnapshotMap(ls) ==> Qty(SnapshotMap(ls), p) == Qty(target, p)
    {
      SeededLevels(ls, target, p);
    }
  }

  /** A price not touched after update `n` has the same quantity at `n` and at `hi`. */
  lemma {:induction false} UntouchedIsUnchanged(h: History, side: Side, lo: int, n: nat, hi: nat, p: int)
    requires lo <= n + 1 && n <= hi
    requires !Touched(h, side, lo, hi, p)
    ensures Qty(BookAt(h, side, n), p) == Qty(BookAt(h, side, hi), p)
    decreases hi
  {
    if n < hi {
      assert p !in h(hi).Of(side);
      assert !Touched(h, side, lo, hi - 1, p);
      UntouchedIsUnchanged(h, side, lo, n, hi - 1, p);
    }
  }

  lemma DiffSideAgrees(
      h: History, side: Side, zone: iset<int>, s: SideState, n: nat, lo: int, hi: nat, ls: seq<Level>)
    requires SideAgrees(h, side, zone, s.levels, n)
    requires lo <= n + 1 && n <= hi
    requires Accurate(h, side, hi, ls)
    requires forall p :: Touched(h, side, lo, hi, p) ==> Listed(ls, p)
    ensures SideAgrees(h, side, zone, ApplyLevels(side, s, ls).levels, hi)
  {
    var target := BookAt(h, side, hi);
    var result := ApplyLevels(side, s, ls).levels;
    forall p
      ensures NoZero(result)
      ensures p in zone || p in result ==> Qty(result, p) == Qty(target, p)
    {
      AppliedLevels(side, s, ls, target, p);
      if !Listed(ls, p) {
        UntouchedIsUnchanged(h, side, lo, n, hi, p);
      }
    }
  }

  /** The continuity rules are what makes an applied diff start no later than the book ends. */
  lemma RangeMeetsBook(venue: Venue, b: Book, ev: DepthEvent)
    requires Classify(venue, b, ev).Applied?
    ensures RangeStart(venue, ev) <= b.lastId + 1 && b.lastId < ev.finalId
  {
  }

  lemma EventAgrees(h: History, z: Zone, venue: Venue, b: Book, ev: DepthEvent)
    requires Agrees(h, z, b) && Faithful(h, venue, ev)
    requires Classify(venue, b, ev).Applied?
    ensures Agrees(h, z, ApplyEvent(b, ev)) && ApplyEvent(b, ev).initialized
  {
    RangeMeetsBook(venue, b, ev);
    DiffSideAgrees(h, Bid, z.bids, b.bids, b.lastId, RangeStart(venue, ev), ev.finalId, ev.bids);
    DiffSideAgrees(h, Ask, z.asks, b.asks, b.lastId, RangeStart(venue, ev), ev.finalId, ev.asks);
  }

  // ---- What a row then shows ----

  /** The best five of a part of a map are the best five of the whole exactly when every level that
      is missing is worse than the fifth of five. */
  lemma PartShowsWholeIff(side: Side, m: PriceMap, whole: PriceMap)
    requires forall p :: p in m ==> p in whole && whole[p] == m[p]
    ensures var v := Best(side, m, VISIBLE);
      v == Best(side, whole, VISIBLE) <==>
      forall p :: p in whole && p !in m ==> |v| == VISIBLE && Better(side, v[VISIBLE - 1].price, p)
  {
    var v := Best(side, m, VISIBLE);
    BestIsBest(side, m, VISIBLE);
    BestIsBest(side, whole, VISIBLE);
    CacheSize(side, m, v);
    CacheSize(side, whole, v);
    if forall p :: p in whole && p !in m ==> |v| == VISIBLE && Better(side, v[VISIBLE - 1].price, p) {
      MissingAreWorse(side, m, whole, v);
      BestIsUnique(side, whole, VISIBLE, v, Best(side, whole, VISIBLE));
    }
    if v == Best(side, whole, VISIBLE) {
      forall p | p in whole && p !in m ensures |v| == VISIBLE && Better(side, v[VISIBLE - 1].price, p) {
        assert !Listed(v, p);
      }
    }
  }

  lemma MissingAreWorse(side: Side, m: PriceMap, whole: PriceMap, v: seq<Level>)
    requires IsBest(side, m, VISIBLE, v) && |v| <= |whole|
    requires forall p :: p in m ==> p in whole && whole[p] == m[p]
    requires forall p :: p in whole && p !in m ==> |v| == VISIBLE && Better(side, v[VISIBLE - 1].price, p)
    ensures IsBest(side, whole, VISIBLE, v)
  {
    if |v| < VISIBLE {
      CacheSize(side, m, v);
      CacheSize(side, whole, v);
      assert AllCached(whole, v);
    } else {
      forall p, i | p in whole && !Listed(v, p) && 0 <= i < |v| ensures Better(side, v[i].price, p) {
        assert i < VISIBLE - 1 ==> Better(side, v[i].price, v[VISIBLE - 1].price);
      }
    }
  }

  /** The five levels a side shows are inside its zone, or the zone is everything. */
  ghost predicate ShowsZone(zone: iset<int>, s: SideState) {
    (forall p :: p in zone) || (VISIBLE <= |s.cache| && s.cache[VISIBLE - 1].price in zone)
  }

  ghost predicate UpClosed(side: Side, zone: iset<int>) {
    forall p, q :: p in zone && Better(side, q, p) ==> q in zone
  }

  lemma ReachIsUpClosed(svc: Service, side: Side, ls: seq<Level>)
    ensures UpClosed(side, ReachOf(svc, side, ls))
  {
    forall p, q | p in ReachOf(svc, side, ls) && Better(side, q, p) ensures q in ReachOf(svc, side, ls) {
      if svc.BestLevels? {
        var i :| 0 <= i < |ls| && !Better(side, ls[i].price, p);
        assert !Better(side, ls[i].price, q);
      }
    }
  }

  lemma SideShowsTop(h: History, side: Side, zone: iset<int>, s: SideState, n: nat)
    requires SideInv(side, s) && SideAgrees(h, side, zone, s.levels, n)
    requires UpClosed(side, zone) && ShowsZone(zone, s)
    ensures Best(side, s.levels, VISIBLE) == Best(side, BookAt(h, side, n), VISIBLE)
  {
    VisibleIsBest(side, s.levels, s.cache);
    IsPart(h, side, zone, s.levels, n);
    MissingAreOutside(h, side, zone, s, n, Best(side, s.levels, VISIBLE));
    PartShowsWholeIff(side, s.levels, BookAt(h, side, n));
  }

  lemma IsPart(h: History, side: Side, zone: iset<int>, m: PriceMap, n: nat)
    requires SideAgrees(h, side, zone, m, n)
    ensures var whole := BookAt(h, side, n);
      && (forall p :: p in m ==> p in whole && whole[p] == m[p])
      && (forall p :: p in whole && p !in m ==> p !in zone)
  {
    var whole := BookAt(h, side, n);
    assert forall p :: p in zone || p in m ==> Qty(m, p) == Qty(whole, p);
    assert forall p :: p in m ==> Qty(m, p) != 0;
    assert forall p :: p in whole ==> Qty(whole, p) != 0;
  }

  lemma MissingAreOutside(h: History, side: Side, zone: iset<int>, s: SideState, n: nat, v: seq<Level>)
    requires SideAgrees(h, side, zone, s.levels, n)
    requires UpClosed(side, zone) && ShowsZone(zone, s)
    requires v == s.cache[..Min(VISIBLE, |s.cache|)]
    ensures forall p :: p in BookAt(h, side, n) && p !in s.levels ==>
      |v| == VISIBLE && Better(side, v[VISIBLE - 1].price, p)
  {
    IsPart(h, side, zone, s.levels, n);
    forall p | p !in zone ensures |v| == VISIBLE && Better(side, v[VISIBLE - 1].price, p) {
      assert v[VISIBLE - 1] == s.cache[VISIBLE - 1];
    }
  }

  ghost predicate RowInZone(z: Zone, b: Book) {
    ShowsZone(z.bids, b.bids) && ShowsZone(z.asks, b.asks)
  }

  ghost predicate ZoneInv(z: Zone) {
    UpClosed(Bid, z.bids) && UpClosed(Ask, z.asks)
  }

  /** The row shows the exchange's best five levels at the book's last id. */
  ghost predicate ShowsTop(h: History, b: Book) {
    ShowsBestFive(CachedTop(b), BookAt(h, Bid, b.lastId), BookAt(h, Ask, b.lastId))
  }

  lemma RowShowsTop(h: History, z: Zone, b: Book)
    requires BookInv(b) && b.initialized && Agrees(h, z, b) && ZoneInv(z) && RowInZone(z, b)
    ensures ShowsTop(h, b)
  {
    RowShowsBestFive(b);
    SideShowsTop(h, Bid, z.bids, b.bids, b.lastId);
    SideShowsTop(h, Ask, z.asks, b.asks, b.lastId);
    TopIsShown(BookAt(h, Bid, b.lastId), BookAt(h, Ask, b.lastId));
  }

  // ---- Whole runs ----

  ghost predicate AllFaithful(h: History, venue: Venue, evs: seq<DepthEvent>) {
    forall i :: 0 <= i < |evs| ==> Faithful(h, venue, evs[i])
  }

  ghost predicate ReportsAgree(h: History, z: Zone, applied: seq<AppliedDiff>) {
    forall i :: 0 <= i < |applied| ==> Agrees(h, z, applied[i].book)
  }

  ghost predicate Honest(h: History, svc: Service, venue: Venue, op: Op) {
    match op
    case Diff(ev) => Faithful(h, venue, ev)
    case Snapshot(bids, asks, id) => Complete(h, svc, Bid, id, bids) && Complete(h, svc, Ask, id, asks)
    case Reconnect => true
  }

  ghost predicate InStep(h: History, z: Zone, s: Session) {
    Agrees(h, z, s.book) && AllFaithful(h, s.venue, s.buffer)
  }

  /** The zone of the last snapshot. */
  ghost function NextZone(svc: Service, z: Zone, op: Op): Zone {
    if op.Snapshot? then Zone(ReachOf(svc, Bid, op.bids), ReachOf(svc, Ask, op.asks)) else z
  }

  ghost function ZoneAfter(svc: Service, ops: seq<Op>): Zone {
    if ops == [] then Zone(ReachOf(svc, Bid, []), ReachOf(svc, Ask, []))
    else NextZone(svc, ZoneAfter(svc, ops[..|ops| - 1]), ops[|ops| - 1])
  }

  lemma NextZoneInv(svc: Service, z: Zone, op: Op)
    requires ZoneInv(z)
    ensures ZoneInv(NextZone(svc, z, op))
  {
    if op.Snapshot? {
      ReachIsUpClosed(svc, Bid, op.bids);
      ReachIsUpClosed(svc, Ask, op.asks);
    }
  }

  lemma {:induction false} DrainAgrees(h: History, z: Zone, s: Session, id: Uint64)
    requires InStep(h, z, s)
    ensures InStep(h, z, Drain(s, id).session)
    ensures ReportsAgree(h, z, Drain(s, id).applied)
    decreases |s.buffer|
  {
    if s.buffer != [] {
      var ev, rest := s.buffer[0], s.buffer[1..];
      if ev.finalId <= id {
        DrainAgrees(h, z, s.(buffer := rest), id);
      } else if Classify(s.venue, s.book, ev) != Gap {
        if Classify(s.venue, s.book, ev).Applied? {
          EventAgrees(h, z, s.venue, s.book, ev);
        }
        DrainAgrees(h, z, ApplyOne(s, ev).(buffer := rest), id);
      }
    }
  }

  lemma DiffAgrees(h: History, z: Zone, s: Session, ev: DepthEvent)
    requires InStep(h, z, s) && Faithful(h, s.venue, ev)
    ensures InStep(h, z, OnDiff(s, ev).session)
    ensures ReportsAgree(h, z, OnDiff(s, ev).applied)
  {
    if Classify(s.venue, s.book, ev).Applied? {
      EventAgrees(h, z, s.venue, s.book, ev);
    }
  }

  /** Every step of honest input keeps book, backlog and reports in agreement with the exchange, in
      the zone of the last snapshot. */
  lemma StepAgrees(h: History, svc: Service, z: Zone, s: Session, op: Op)
    requires InStep(h, z, s) && Honest(h, svc, s.venue, op)
    ensures InStep(h, NextZone(svc, z, op), Perform(s, op).session)
    ensures ReportsAgree(h, NextZone(svc, z, op), Perform(s, op).applied)
    ensures Perform(s, op).session.venue == s.venue
  {
    VenueIsFixed(s, op);
    match op {
      case Diff(ev) => DiffAgrees(h, z, s, ev);
      case Snapshot(bids, asks, id) =>
        var z' := NextZone(svc, z, op);
        assert Agrees(h, z', SetSnapshot(bids, asks, id)) by {
          SnapshotAgrees(h, svc, Bid, id, bids);
          SnapshotAgrees(h, svc, Ask, id, asks);
        }
        DrainAgrees(h, z', Reseed(s, bids, asks, id), id);
      case Reconnect =>
    }
  }

  /** The zones in which the applied diffs of a run were reported. */
  ghost function Zones(svc: Service, s: Session, ops: seq<Op>): seq<Zone> {
    if ops == [] then []
    else
      var front := ops[..|ops| - 1];
      Zones(svc, s, front) +
      seq(|Perform(Run(s, front).session, ops[|ops| - 1]).applied|, _ => ZoneAfter(svc, ops))
  }

  lemma {:induction false} RunAgrees(h: History, svc: Service, venue: Venue, ops: seq<Op>)
    requires forall i :: 0 <= i < |ops| ==> Honest(h, svc, venue, ops[i])
    ensures var r, zones := Run(NewSession(venue), ops), Zones(svc, NewSession(venue), ops);
      && InStep(h, ZoneAfter(svc, ops), r.session) && ZoneInv(ZoneAfter(svc, ops)) && r.session.venue == venue
      && |zones| == |r.applied|
      && forall i :: 0 <= i < |zones| ==> Agrees(h, zones[i], r.applied[i].book) && ZoneInv(zones[i])
  {
    if ops == [] {
      ReachIsUpClosed(svc, Bid, []);
      ReachIsUpClosed(svc, Ask, []);
    } else {
      var front, op := ops[..|ops| - 1], ops[|ops| - 1];
      RunAgrees(h, svc, venue, front);
      StepAgrees(h, svc, ZoneAfter(svc, front), Run(NewSession(venue), front).session, op);
      NextZoneInv(svc, ZoneAfter(svc, front), op);
    }
  }

  lemma VenueIsFixed(s: Session, op: Op)
    ensures Perform(s, op).session.venue == s.venue
  {
    if op.Snapshot? {
      DrainLeavesSuffix(Reseed(s, op.bids, op.asks, op.id), op.id);
    }
  }

  /** Whatever subset of honest diffs arrives, in whatever order and however often: whatever a seeded
      book holds is right at its last id, it holds everything in the zone of its snapshot, and each
      row that stays inside that zone shows the exchange's true best five levels; likewise for every
      reported diff, at its final id. */
  lemma ZoneAgreement(h: History, svc: Service, venue: Venue, ops: seq<Op>)
    requires forall i :: 0 <= i < |ops| ==> Honest(h, svc, venue, ops[i])
    ensures var b, z := Run(NewSession(venue), ops).session.book, ZoneAfter(svc, ops);
      Agrees(h, z, b) && (b.initialized && RowInZone(z, b) ==> ShowsTop(h, b))
    ensures var applied, zones := Run(NewSession(venue), ops).applied, Zones(svc, NewSession(venue), ops);
      && |zones| == |applied|
      && forall i :: 0 <= i < |applied| ==>
          && applied[i].book.initialized && applied[i].book.lastId == applied[i].ev.finalId
          && Agrees(h, zones[i], applied[i].book)
          && (RowInZone(zones[i], applied[i].book) ==> ShowsTop(h, applied[i].book))
  {
    var s := NewSession(venue);
    RunAgrees(h, svc, venue, ops);
    EmptyBookInv();
    RunKeepsInv(s, ops);
    var r, zones := Run(s, ops), Zones(svc, s, ops);
    if r.session.book.initialized && RowInZone(ZoneAfter(svc, ops), r.session.book) {
      RowShowsTop(h, ZoneAfter(svc, ops), r.session.book);
    }
    forall i | 0 <= i < |r.applied| && RowInZone(zones[i], r.applied[i].book)
      ensures ShowsTop(h, r.applied[i].book)
    {
      assert FaithfulReport(r.applied[i]);
      RowShowsTop(h, zones[i], r.applied[i].book);
    }
  }

  // ---- Snapshots of the whole book ----

  ghost predicate IsWhole(z: Zone) {
    forall p :: p in z.bids && p in z.asks
  }

  lemma {:induction false} ZonesAreWhole(s: Session, ops: seq<Op>)
    ensures IsWhole(ZoneAfter(WholeBook, ops))
    ensures forall i :: 0 <= i < |Zones(WholeBook, s, ops)| ==> IsWhole(Zones(WholeBook, s, ops)[i])
  {
    if ops != [] {
      ZonesAreWhole(s, ops[..|ops| - 1]);
    }
  }

  lemma WholeSideAgrees(h: History, side: Side, zone: iset<int>, m: PriceMap, n: nat)
    requires SideAgrees(h, side, zone, m, n) && forall p :: p in zone
    ensures m == BookAt(h, side, n)
  {
    SameQuantities(m, BookAt(h, side, n));
  }

  /** With snapshots of the whole book, a seeded book is the exchange's book at its last id, and every
      reported row shows the exchange's true best five levels at the reported diff's final id. */
  lemma ExchangeAgreement(h: History, venue: Venue, ops: seq<Op>)
    requires forall i :: 0 <= i < |ops| ==> Honest(h, WholeBook, venue, ops[i])
    ensures var b := Run(NewSession(venue), ops).session.book;
      b.initialized ==>
        && b.bids.levels == BookAt(h, Bid, b.lastId)
        && b.asks.levels == BookAt(h, Ask, b.lastId)
        && ShowsTop(h, b)
    ensures var applied := Run(NewSession(venue), ops).applied;
      forall i :: 0 <= i < |applied| ==> var n := applied[i].ev.finalId;
        ShowsBestFive(CachedTop(applied[i].book), BookAt(h, Bid, n), BookAt(h, Ask, n))
  {
    var s := NewSession(venue);
    ZoneAgreement(h, WholeBook, venue, ops);
    ZonesAreWhole(s, ops);
    var r, z, zones := Run(s, ops), ZoneAfter(WholeBook, ops), Zones(WholeBook, s, ops);
    if r.session.book.initialized {
      WholeSideAgrees(h, Bid, z.bids, r.session.book.bids.levels, r.session.book.lastId);
      WholeSideAgrees(h, Ask, z.asks, r.session.book.asks.levels, r.session.book.lastId);
    }
    forall i | 0 <= i < |r.applied| ensures ShowsTop(h, r.applied[i].book) {
      assert IsWhole(zones[i]);
    }
  }
}
