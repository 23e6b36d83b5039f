/** The order book of one symbol: as a value (`Book`) on which whole runs are reasoned about, and
    as the mutable object (`OrderBook`) whose methods are proved to compute those values. */
module Books {
  import opened MarketTypes
  import opened TopCache

  datatype ApplyResult = Applied | IgnoredOld | Gap | NeedSnapshot

  datatype Book = Book(bids: SideState, asks: SideState, initialized: bool, lastId: Uint64, started: bool)

  function EmptyBook(): Book {
    Book(SideState(map[], []), SideState(map[], []), false, 0, false)
  }

  ghost predicate BookInv(b: Book) {
    SideInv(Bid, b.bids) && SideInv(Ask, b.asks)
  }

  // ---- Operations as values ----

  /** The map a snapshot side is loaded into: a later non-zero level wins, zero levels are skipped. */
  function SnapshotMap(ls: seq<Level>): PriceMap {
    if ls == [] then map[]
    else
      var m, l := SnapshotMap(ls[..|ls| - 1]), ls[|ls| - 1];
      if l.qty != 0 then m[l.price := l.qty] else m
  }

  ghost function Seeded(side: Side, ls: seq<Level>): SideState {
    SideState(SnapshotMap(ls), Best(side, SnapshotMap(ls), CAPACITY))
  }

  ghost function SetSnapshot(bids: seq<Level>, asks: seq<Level>, id: Uint64): Book {
    Book(Seeded(Bid, bids), Seeded(Ask, asks), true, id, false)
  }

  /** Position of the last level with a price, or -1. */
  function LastAt(ls: seq<Level>, p: int): (k: int)
    ensures -1 <= k < |ls|
    ensures k >= 0 ==> ls[k].price == p
    ensures forall i :: k < i < |ls| ==> ls[i].price != p
  {
    if ls == [] then -1
    else if ls[|ls| - 1].price == p then |ls| - 1
    else LastAt(ls[..|ls| - 1], p)
  }

  /** Of several levels at one price in a diff the last counts: zero deletes it, anything else is the new
      quantity. Other prices keep theirs. */
  lemma {:induction false} LastLevelWins(side: Side, s: SideState, ls: seq<Level>, p: int)
    ensures var m, k := ApplyLevels(side, s, ls).levels, LastAt(ls, p);
      if k < 0 then p in m <==> p in s.levels
      else p in m <==> ls[k].qty != 0
    ensures var m, k := ApplyLevels(side, s, ls).levels, LastAt(ls, p);
      p in m ==> m[p] == if k < 0 then s.levels[p] else ls[k].qty
  {
    if ls != [] {
      LastLevelWins(side, s, ls[..|ls| - 1], p);
    }
  }

  predicate IsLastNonZero(ls: seq<Level>, p: int, i: nat) {
    && i < |ls| && ls[i].price == p && ls[i].qty != 0
    && forall j :: i < j < |ls| && ls[j].price == p ==> ls[j].qty == 0
  }

  /** In a snapshot the last level at a price whose quantity is not zero counts. */
  lemma {:induction false} LastSnapshotLevelWins(ls: seq<Level>, p: int, i: nat)
    requires IsLastNonZero(ls, p, i)
    ensures p in SnapshotMap(ls) && SnapshotMap(ls)[p] == ls[i].qty
  {
    var front := ls[..|ls| - 1];
    if i < |front| {
      assert IsLastNonZero(front, p, i);
      LastSnapshotLevelWins(front, p, i);
    }
  }

  /** Prices without such a level are not in the book. */
  lemma {:induction false} OnlyListedAreLoaded(ls: seq<Level>, p: int)
    requires p in SnapshotMap(ls)
    ensures exists i :: 0 <= i < |ls| && ls[i].price == p && ls[i].qty != 0
  {
    var front, l := ls[..|ls| - 1], ls[|ls| - 1];
    if l.price == p && l.qty != 0 {
      assert ls[|ls| - 1].price == p;
    } else {
      OnlyListedAreLoaded(front, p);
      var i :| 0 <= i < |front| && front[i].price == p && front[i].qty != 0;
      assert ls[i] == front[i];
    }
  }

  /** 64-bit successor, with its wrap-around. */
  function Next64(id: Uint64): Uint64 {
    if id == UINT64_MAX then 0 else id + 1
  }

  /** What the sequencing rules of a venue say about an event. */
  function Classify(venue: Venue, b: Book, ev: DepthEvent): ApplyResult {
    if !b.initialized then NeedSnapshot
    else if ev.finalId <= b.lastId then IgnoredOld
    else if venue.Spot? then (if ev.firstId > Next64(b.lastId) then Gap else Applied)
    else if !b.started then (if ev.firstId > b.lastId then Gap else Applied)
    else if ev.prevId != b.lastId then Gap
    else Applied
  }

  ghost function ApplyEvent(b: Book, ev: DepthEvent): Book {
    Book(ApplyLevels(Bid, b.bids, ev.bids), ApplyLevels(Ask, b.asks, ev.asks), b.initialized, ev.finalId, true)
  }

  ghost function ApplyDiff(venue: Venue, b: Book, ev: DepthEvent): Book {
    if Classify(venue, b, ev).Applied? then ApplyEvent(b, ev) else b
  }

  lemma SnapshotKeepsInv(bids: seq<Level>, asks: seq<Level>, id: Uint64)
    ensures BookInv(SetSnapshot(bids, asks, id))
  {
    BestKeepsInv(Bid, SnapshotMap(bids));
    BestKeepsInv(Ask, SnapshotMap(asks));
  }

  lemma DiffKeepsInv(venue: Venue, b: Book, ev: DepthEvent)
    requires BookInv(b)
    ensures BookInv(ApplyDiff(venue, b, ev))
  {
    UpdatesKeepInv(Bid, b.bids, ev.bids);
    UpdatesKeepInv(Ask, b.asks, ev.asks);
  }

  /** The successor is only taken of an id below some event's final id, so it never wraps. */
  lemma SuccessorNeverWraps(venue: Venue, b: Book, ev: DepthEvent)
    requires Classify(venue, b, ev) in {Applied, Gap}
    ensures b.lastId + 1 < UINT64_BOUND && Next64(b.lastId) == b.lastId + 1
  {
  }

  // ---- Rows ----

  /** The visible part of an emitted row; the other columns are set by whoever emits it. */
  datatype TopFive = TopFive(bid: seq<int>, bidSize: seq<int>, ask: seq<int>, askSize: seq<int>)

  function Zeros(): seq<int> {
    [0, 0, 0, 0, 0]
  }

  function FreshTop(): TopFive {
    TopFive(Zeros(), Zeros(), Zeros(), Zeros())
  }

  predicate IsTopFive(t: TopFive) {
    |t.bid| == |t.bidSize| == |t.ask| == |t.askSize| == VISIBLE
  }

  function PriceColumns(c: seq<Level>): seq<int> {
    seq(VISIBLE, i requires 0 <= i < VISIBLE => if i < |c| then c[i].price else 0)
  }

  function QtyColumns(c: seq<Level>): seq<int> {
    seq(VISIBLE, i requires 0 <= i < VISIBLE => if i < |c| then c[i].qty else 0)
  }

  function Columns(bids: seq<Level>, asks: seq<Level>): TopFive {
    TopFive(PriceColumns(bids), QtyColumns(bids), PriceColumns(asks), QtyColumns(asks))
  }

  /** What a fresh row holds after it is filled: the head of each cache, zero-padded. */
  function CachedTop(b: Book): TopFive {
    Columns(b.bids.cache, b.asks.cache)
  }

  /** What a row should hold: the best five levels of each full map, zero-padded. */
  ghost function TrueTop(bids: PriceMap, asks: PriceMap): TopFive {
    Columns(Best(Bid, bids, VISIBLE), Best(Ask, asks, VISIBLE))
  }

  lemma RowShowsBestFive(b: Book)
    requires BookInv(b)
    ensures CachedTop(b) == TrueTop(b.bids.levels, b.asks.levels)
    ensures ShowsBestFive(CachedTop(b), b.bids.levels, b.asks.levels)
  {
    TopIsShown(b.bids.levels, b.asks.levels);
    VisibleIsBest(Bid, b.bids.levels, b.bids.cache);
    VisibleIsBest(Ask, b.asks.levels, b.asks.cache);
    SamePrefixSameColumns(b.bids.cache, Best(Bid, b.bids.levels, VISIBLE));
    SamePrefixSameColumns(b.asks.cache, Best(Ask, b.asks.levels, VISIBLE));
  }

  lemma SamePrefixSameColumns(c: seq<Level>, d: seq<Level>)
    requires d == c[..Min(VISIBLE, |c|)]
    ensures PriceColumns(c) == PriceColumns(d) && QtyColumns(c) == QtyColumns(d)
  {
  }

  // ---- Rows in plain terms ----

  /** Five bid columns and their sizes: the highest min(5, n) prices of the side, highest first, each with
      its quantity; every other bid is lower than all that are shown; the rest is zero. */
  ghost predicate ShowsBids(price: seq<int>, qty: seq<int>, m: PriceMap) {
    var k := if |m| < 5 then |m| else 5;
    && |price| == 5 && |qty| == 5
    && (forall i :: 0 <= i < k ==> price[i] in m && qty[i] == m[price[i]])
    && (forall i, j :: 0 <= i < j < k ==> price[i] > price[j])
    && (forall p, i :: p in m && p !in price[..k] && 0 <= i < k ==> p < price[i])
    && (forall i :: k <= i < 5 ==> price[i] == 0 && qty[i] == 0)
  }

  /** Five ask columns: the lowest prices, lowest first. */
  ghost predicate ShowsAsks(price: seq<int>, qty: seq<int>, m: PriceMap) {
    var k := if |m| < 5 then |m| else 5;
    && |price| == 5 && |qty| == 5
    && (forall i :: 0 <= i < k ==> price[i] in m && qty[i] == m[price[i]])
    && (forall i, j :: 0 <= i < j < k ==> price[i] < price[j])
    && (forall p, i :: p in m && p !in price[..k] && 0 <= i < k ==> price[i] < p)
    && (forall i :: k <= i < 5 ==> price[i] == 0 && qty[i] == 0)
  }

  ghost predicate ShowsBestFive(t: TopFive, bids: PriceMap, asks: PriceMap) {
    ShowsBids(t.bid, t.bidSize, bids) && ShowsAsks(t.ask, t.askSize, asks)
  }

  /** The columns of a list of levels, position by position. */
  predicate ShowsList(price: seq<int>, qty: seq<int>, ls: seq<Level>) {
    && |price| == 5 && |qty| == 5
    && forall i :: 0 <= i < 5 ==>
        && price[i] == (if i < |ls| then ls[i].price else 0)
        && qty[i] == (if i < |ls| then ls[i].qty else 0)
  }

  lemma ColumnsShowLists(bids: seq<Level>, asks: seq<Level>)
    ensures var t := Columns(bids, asks); ShowsList(t.bid, t.bidSize, bids) && ShowsList(t.ask, t.askSize, asks)
  {
  }

  lemma OneList(price: seq<int>, qty: seq<int>, ls: seq<Level>)
    requires ShowsList(price, qty, ls)
    ensures price == PriceColumns(ls) && qty == QtyColumns(ls)
  {
  }

  lemma ListedIffShown(price: seq<int>, qty: seq<int>, c: seq<Level>, p: int)
    requires ShowsList(price, qty, c) && |c| <= 5
    ensures Listed(c, p) <==> p in price[..|c|]
  {
    if Listed(c, p) {
      var i :| 0 <= i < |c| && c[i].price == p;
      assert price[..|c|][i] == p;
    }
    if p in price[..|c|] {
      var i :| 0 <= i < |c| && price[..|c|][i] == p;
      assert c[i].price == p;
    }
  }

  lemma BestBidsAreShown(price: seq<int>, qty: seq<int>, m: PriceMap, c: seq<Level>)
    requires ShowsList(price, qty, c) && |c| == Min(5, |m|)
    ensures ShowsBids(price, qty, m) <==> IsBest(Bid, m, 5, c)
  {
    forall p ensures Listed(c, p) <==> p in price[..|c|] {
      ListedIffShown(price, qty, c, p);
    }
  }

  lemma BestAsksAreShown(price: seq<int>, qty: seq<int>, m: PriceMap, c: seq<Level>)
    requires ShowsList(price, qty, c) && |c| == Min(5, |m|)
    ensures ShowsAsks(price, qty, m) <==> IsBest(Ask, m, 5, c)
  {
    forall p ensures Listed(c, p) <==> p in price[..|c|] {
      ListedIffShown(price, qty, c, p);
    }
  }

  lemma ColumnsList(price: seq<int>, qty: seq<int>, k: nat) returns (c: seq<Level>)
    requires |price| == 5 && |qty| == 5 && k <= 5
    requires forall i :: k <= i < 5 ==> price[i] == 0 && qty[i] == 0
    ensures |c| == k && ShowsList(price, qty, c)
  {
    c := seq(k, i requires 0 <= i < k => Level(price[i], qty[i]));
  }

  lemma OnlyBestBidsAreShown(price: seq<int>, qty: seq<int>, m: PriceMap)
    requires ShowsBids(price, qty, m)
    ensures ShowsList(price, qty, Best(Bid, m, 5))
  {
    var c := ColumnsList(price, qty, Min(5, |m|));
    BestBidsAreShown(price, qty, m, c);
    BestIsBest(Bid, m, 5);
    BestIsUnique(Bid, m, 5, c, Best(Bid, m, 5));
  }

  lemma OnlyBestAsksAreShown(price: seq<int>, qty: seq<int>, m: PriceMap)
    requires ShowsAsks(price, qty, m)
    ensures ShowsList(price, qty, Best(Ask, m, 5))
  {
    var c := ColumnsList(price, qty, Min(5, |m|));
    BestAsksAreShown(price, qty, m, c);
    BestIsBest(Ask, m, 5);
    BestIsUnique(Ask, m, 5, c, Best(Ask, m, 5));
  }

  /** Only one row shows the best five levels of both sides. */
  lemma OnlyTopIsShown(t: TopFive, bids: PriceMap, asks: PriceMap)
    requires ShowsBestFive(t, bids, asks)
    ensures t == TrueTop(bids, asks)
  {
    OnlyBestBidsAreShown(t.bid, t.bidSize, bids);
    OnlyBestAsksAreShown(t.ask, t.askSize, asks);
    OneList(t.bid, t.bidSize, Best(Bid, bids, 5));
    OneList(t.ask, t.askSize, Best(Ask, asks, 5));
  }

  lemma TopIsShown(bids: PriceMap, asks: PriceMap)
    ensures ShowsBestFive(TrueTop(bids, asks), bids, asks)
  {
    var b, a, t := Best(Bid, bids, 5), Best(Ask, asks, 5), TrueTop(bids, asks);
    BestIsBest(Bid, bids, 5);
    BestIsBest(Ask, asks, 5);
    ColumnsShowLists(b, a);
    BestBidsAreShown(t.bid, t.bidSize, bids, b);
    BestAsksAreShown(t.ask, t.askSize, asks, a);
  }

  /** The first `n` columns taken from the cache where it reaches, the others as they were. */
  ghost predicate Filled(c: seq<Level>, n: nat, price: seq<int>, qty: seq<int>, price': seq<int>, qty': seq<int>) {
    && |price| == |qty| == |price'| == |qty'| == VISIBLE
    && forall k :: 0 <= k < VISIBLE ==>
        && price'[k] == (if k < n && k < |c| then c[k].price else price[k])
        && qty'[k] == (if k < n && k < |c| then c[k].qty else qty[k])
  }

  lemma FilledFresh(c: seq<Level>, price: seq<int>, qty: seq<int>)
    requires Filled(c, VISIBLE, Zeros(), Zeros(), price, qty)
    ensures price == PriceColumns(c) && qty == QtyColumns(c)
  {
  }

  lemma OneMoreKey(m: PriceMap, remaining: set<int>, p: int)
    requires p in remaining && remaining <= m.Keys
    ensures m - (remaining - {p}) == (m - remaining)[p := m[p]]
  {
  }

  lemma NoneVisited(side: Side, m: PriceMap)
    ensures IsBest(side, m - m.Keys, CAPACITY, [])
  {
    assert m - m.Keys == map[];
  }

  lemma AllVisited(side: Side, m: PriceMap, c: seq<Level>)
    requires IsBest(side, m - {}, CAPACITY, c)
    ensures c == Best(side, m, CAPACITY)
  {
    assert m - {} == m;
    BestIsBest(side, m, CAPACITY);
    BestIsUnique(side, m, CAPACITY, c, Best(side, m, CAPACITY));
  }

  /** Some member, whichever a hash map's iteration yields next. */
  method AnyOf<T(==)>(s: set<T>) returns (x: T)
    requires s != {}
    ensures x in s
  {
    x :| x in s;
  }

  // ---- One side as an object ----

  lemma GapClosed(before: seq<Level>, after: seq<Level>, i: nat, n: nat)
    requires i < n <= |before| == |after|
    requires forall k :: 0 <= k < |after| ==> after[k] == before[if i <= k < n - 1 then k + 1 else k]
    ensures after[..n - 1] == before[..i] + before[i + 1..n]
  {
  }

  lemma GapOpened(before: seq<Level>, after: seq<Level>, pos: nat, limit: nat, l: Level)
    requires pos <= limit < |before| == |after| && after[pos] == l
    requires forall k :: 0 <= k < |after| && k != pos ==> after[k] == before[if pos < k <= limit then k - 1 else k]
    ensures after[..limit + 1] == before[..pos] + [l] + before[pos..limit]
  {
  }

  class SideBook {
    const side: Side
    const slots: array<Level>
    var levels: PriceMap
    var count: nat

    ghost predicate Valid()
      reads this
    {
      slots.Length == CAPACITY && count <= CAPACITY
    }

    function Cache(): seq<Level>
      requires Valid()
      reads this, slots
    {
      slots[..count]
    }

    function State(): SideState
      requires Valid()
      reads this, slots
    {
      SideState(levels, Cache())
    }

    constructor (side: Side)
      ensures Valid() && fresh(slots)
      ensures this.side == side && State() == SideState(map[], [])
    {
      this.side := side;
      slots := new Level[CAPACITY](i => Level(0, 0));
      levels := map[];
      count := 0;
    }

    method ClearCache()
      requires Valid()
      modifies this`count, slots
      ensures Valid() && Cache() == []
      ensures forall i :: 0 <= i < slots.Length ==> slots[i] == Level(0, 0)
    {
      count := 0;
      for i := 0 to slots.Length
        modifies slots
        invariant forall j :: 0 <= j < i ==> slots[j] == Level(0, 0)
      {
        slots[i] := Level(0, 0);
      }
    }

    method FindPrice(price: int) returns (i: nat)
      requires Valid()
      ensures i == IndexOf(Cache(), price)
    {
      i := 0;
      while i < count && slots[i].price != price
        invariant i <= count
        invariant FindFrom(Cache(), price, 0) == FindFrom(Cache(), price, i)
      {
        i := i + 1;
      }
    }

    /** Moves the levels after slot `i` one slot down. */
    method CloseGap(i: nat)
      requires Valid() && i < count
      modifies slots
      ensures slots[..count - 1] == old(slots[..i] + slots[i + 1..count])
    {
      ghost var before := slots[..];
      var j := i + 1;
      while j < count
        invariant i < j <= count
        invariant forall k :: 0 <= k < slots.Length ==> slots[k] == before[if i <= k < j - 1 then k + 1 else k]
      {
        slots[j - 1] := slots[j];
        j := j + 1;
      }
      GapClosed(before, slots[..], i, count);
    }

    method RemoveCachePrice(price: int) returns (visible: bool)
      requires Valid()
      modifies this`count, slots
      ensures Valid()
      ensures Cache() == RemovePrice(old(Cache()), price)
      ensures visible <==> IndexOf(old(Cache()), price) < Min(VISIBLE, |old(Cache())|)
    {
      ghost var c := Cache();
      var i := FindPrice(price);
      if i == count {
        return false;
      }
      assert c[..i] == slots[..i] && c[i + 1..] == slots[i + 1..count];
      CloseGap(i);
      count := count - 1;
      slots[count] := Level(0, 0);
      return i < VISIBLE;
    }

    method FindInsert(price: int) returns (pos: nat)
      requires Valid()
      ensures pos == InsertAt(side, Cache(), price)
    {
      pos := 0;
      while pos < count && Better(side, slots[pos].price, price)
        invariant pos <= count
        invariant NotBetterFrom(side, Cache(), price, 0) == NotBetterFrom(side, Cache(), price, pos)
      {
        pos := pos + 1;
      }
    }

    /** Moves the levels from slot `pos` to slot `limit` one slot up and stores `l` at `pos`. */
    method OpenGap(pos: nat, limit: nat, l: Level)
      requires slots.Length == CAPACITY && pos <= limit < CAPACITY
      modifies slots
      ensures slots[..limit + 1] == old(slots[..pos]) + [l] + old(slots[pos..limit])
    {
      ghost var before := slots[..];
      var j := limit;
      while j > pos
        invariant pos <= j <= limit
        invariant forall k :: 0 <= k < slots.Length ==> slots[k] == before[if j < k <= limit then k - 1 else k]
      {
        slots[j] := slots[j - 1];
        j := j - 1;
      }
      slots[pos] := l;
      GapOpened(before, slots[..], pos, limit, l);
    }

    method UpsertCache(l: Level)
      requires Valid()
      modifies this`count, slots
      ensures Valid()
      ensures Cache() == Upsert(side, old(Cache()), l)
    {
      ghost var c := Cache();
      if count == CAPACITY && !Better(side, l.price, slots[CAPACITY - 1].price) {
        return;
      }
      var pos := FindInsert(l.price);
      var limit := Min(count, CAPACITY - 1);
      LastIsWorse(c, l.price, pos);
      TrimmedInsert(c, l, pos, limit);
      assert c[..pos] == slots[..pos] && c[pos..limit] == slots[pos..limit];
      OpenGap(pos, limit, l);
      if count < CAPACITY {
        count := count + 1;
      }
    }

    lemma LastIsWorse(c: seq<Level>, price: int, pos: nat)
      requires pos == InsertAt(side, c, price)
      requires |c| <= CAPACITY
      requires |c| == CAPACITY ==> Better(side, price, c[CAPACITY - 1].price)
      ensures pos <= Min(|c|, CAPACITY - 1)
    {
    }

    lemma TrimmedInsert(c: seq<Level>, l: Level, pos: nat, limit: nat)
      requires pos <= limit <= |c|
      ensures (c[..pos] + [l] + c[pos..])[..limit + 1] == c[..pos] + [l] + c[pos..limit]
    {
    }

    /** Visits the map in an arbitrary order, as iteration over a hash map does. */
    method RebuildCache()
      requires Valid()
      modifies this`count, slots
      ensures Valid()
      ensures Cache() == Best(side, levels, CAPACITY)
    {
      ClearCache();
      var remaining := levels.Keys;
      NoneVisited(side, levels);
      while remaining != {}
        invariant remaining <= levels.Keys
        invariant HoldsBestOf(levels - remaining)
        decreases |remaining|
      {
        var p := AnyOf(remaining);
        OneMoreKey(levels, remaining, p);
        RebuildStep(levels - remaining, p);
        remaining := remaining - {p};
      }
      AllVisited(side, levels, Cache());
    }

    ghost predicate HoldsBestOf(m: PriceMap)
      reads this, slots
    {
      Valid() && IsBest(side, m, CAPACITY, Cache())
    }

    method RebuildStep(ghost seen: PriceMap, p: int)
      requires p in levels && p !in seen
      requires HoldsBestOf(seen)
      modifies this`count, slots
      ensures HoldsBestOf(seen[p := levels[p]])
    {
      UpsertExtendsBest(side, seen, Cache(), Level(p, levels[p]));
      UpsertCache(Level(p, levels[p]));
    }

    method Apply(l: Level)
      requires Valid()
      modifies this, slots
      ensures Valid()
      ensures State() == ApplyLevel(side, old(State()), l)
    {
      var visible := RemoveCachePrice(l.price);
      if l.qty == 0 {
        levels := levels - {l.price};
        if visible || count < VISIBLE {
          RebuildCache();
        }
        return;
      }
      levels := levels[l.price := l.qty];
      UpsertCache(l);
    }

    method ApplyAll(ls: seq<Level>)
      requires Valid()
      modifies this, slots
      ensures Valid()
      ensures State() == ApplyLevels(side, old(State()), ls)
    {
      for i := 0 to |ls|
        invariant Valid()
        invariant State() == ApplyLevels(side, old(State()), ls[..i])
      {
        assert ls[..i + 1][..i] == ls[..i];
        Apply(ls[i]);
      }
      assert ls[..|ls|] == ls;
    }

    method Seed(ls: seq<Level>)
      requires Valid()
      modifies this, slots
      ensures Valid()
      ensures State() == Seeded(side, ls)
    {
      levels := map[];
      for i := 0 to |ls|
        modifies this`levels
        invariant levels == SnapshotMap(ls[..i])
      {
        assert ls[..i + 1][..i] == ls[..i];
        if ls[i].qty != 0 {
          levels := levels[ls[i].price := ls[i].qty];
        }
      }
      assert ls[..|ls|] == ls;
      RebuildCache();
    }

    method Clear()
      requires Valid()
      modifies this, slots
      ensures Valid()
      ensures State() == SideState(map[], [])
    {
      levels := map[];
      ClearCache();
    }
  }

  // ---- The book as an object ----

  class OrderBook {
    const id: int
    const bids: SideBook
    const asks: SideBook
    var initialized: bool
    var lastUpdateId: Uint64
    var started: bool

    ghost function Repr(): set<object>
    {
      {this, bids, bids.slots, asks, asks.slots}
    }

    ghost predicate Valid()
      reads Repr()
    {
      && bids != asks && bids.slots != asks.slots
      && bids.side == Bid && asks.side == Ask
      && bids.Valid() && asks.Valid()
      && SideInv(Bid, bids.State()) && SideInv(Ask, asks.State())
    }

    function State(): (b: Book)
      requires Valid()
      reads Repr()
    {
      Book(bids.State(), asks.State(), initialized, lastUpdateId, started)
    }

    constructor (instrumentId: int)
      ensures Valid() && fresh(Repr())
      ensures id == instrumentId && State() == EmptyBook()
    {
      id := instrumentId;
      bids := new SideBook(Bid);
      asks := new SideBook(Ask);
      initialized, lastUpdateId, started := false, 0, false;
    }

    method Load(bidLevels: seq<Level>, askLevels: seq<Level>, snapshotId: Uint64)
      requires Valid()
      modifies Repr()
      ensures Valid()
      ensures State() == SetSnapshot(bidLevels, askLevels, snapshotId)
    {
      SnapshotKeepsInv(bidLevels, askLevels, snapshotId);
      bids.Seed(bidLevels);
      asks.Seed(askLevels);
      lastUpdateId := snapshotId;
      initialized := true;
      started := false;
    }

    method ApplySides(ev: DepthEvent)
      requires Valid()
      modifies Repr()
      ensures Valid()
      ensures bids.State() == ApplyLevels(Bid, old(bids.State()), ev.bids)
      ensures asks.State() == ApplyLevels(Ask, old(asks.State()), ev.asks)
      ensures initialized == old(initialized)
    {
      UpdatesKeepInv(Bid, bids.State(), ev.bids);
      UpdatesKeepInv(Ask, asks.State(), ev.asks);
      bids.ApplyAll(ev.bids);
      asks.ApplyAll(ev.asks);
    }

    method ApplyDiffSpot(ev: DepthEvent) returns (r: ApplyResult)
      requires Valid()
      modifies Repr()
      ensures Valid()
      ensures r == Classify(Spot, old(State()), ev)
      ensures State() == ApplyDiff(Spot, old(State()), ev)
    {
      if !initialized { return NeedSnapshot; }
      if ev.finalId <= lastUpdateId { return IgnoredOld; }
      var next: Uint64 := lastUpdateId + 1;
      if ev.firstId > next { return Gap; }
      ApplySides(ev);
      lastUpdateId := ev.finalId;
      started := true;
      return Applied;
    }

    method ApplyDiffUsdm(ev: DepthEvent) returns (r: ApplyResult)
      requires Valid()
      modifies Repr()
      ensures Valid()
      ensures r == Classify(Usdm, old(State()), ev)
      ensures State() == ApplyDiff(Usdm, old(State()), ev)
    {
      if !initialized { return NeedSnapshot; }
      if ev.finalId <= lastUpdateId { return IgnoredOld; }
      if !started {
        if ev.firstId > lastUpdateId { return Gap; }
      } else if ev.prevId != lastUpdateId {
        return Gap;
      }
      ApplySides(ev);
      lastUpdateId := ev.finalId;
      started := true;
      return Applied;
    }

    /** On a fresh row the result is exactly the best five levels of each full map. */
    method FillTop5(row: TopFive) returns (t: TopFive)
      requires Valid() && IsTopFive(row)
      ensures IsTopFive(t)
      ensures row == FreshTop() ==> t == CachedTop(State())
      ensures row == FreshTop() ==> ShowsBestFive(t, bids.levels, asks.levels)
      ensures forall i :: 0 <= i < VISIBLE && bids.count <= i ==>
        t.bid[i] == row.bid[i] && t.bidSize[i] == row.bidSize[i]
      ensures forall i :: 0 <= i < VISIBLE && asks.count <= i ==>
        t.ask[i] == row.ask[i] && t.askSize[i] == row.askSize[i]
    {
      t := row;
      for i := 0 to VISIBLE
        invariant Filled(bids.Cache(), i, row.bid, row.bidSize, t.bid, t.bidSize)
        invariant Filled(asks.Cache(), i, row.ask, row.askSize, t.ask, t.askSize)
      {
        if i < bids.count {
          t := t.(bid := t.bid[i := bids.slots[i].price], bidSize := t.bidSize[i := bids.slots[i].qty]);
        }
        if i < asks.count {
          t := t.(ask := t.ask[i := asks.slots[i].price], askSize := t.askSize[i := asks.slots[i].qty]);
        }
      }
      RowShowsBestFive(State());
      TopIsShown(bids.levels, asks.levels);
      if row == FreshTop() {
        FilledFresh(bids.Cache(), t.bid, t.bidSize);
        FilledFresh(asks.Cache(), t.ask, t.askSize);
      }
    }

    method Reset()
      requires Valid()
      modifies Repr()
      ensures Valid()
      ensures State() == EmptyBook()
    {
      bids.Clear();
      asks.Clear();
      initialized, lastUpdateId, started := false, 0, false;
    }
  }
}
