/** One side of the book as values: the full price map and the sorted cache of at most 64 levels
    that rows are read from. `CacheInv` is what every update keeps; it is weaker than "the cache
    is the best 64 levels", which the code does not keep. */
module TopCache {
  import opened MarketTypes

  const CAPACITY: nat := 64
  const VISIBLE: nat := 5

  type PriceMap = map<int, int>

  predicate Better(side: Side, a: int, b: int) {
    if side.Bid? then a > b else a < b
  }

  predicate Sorted(side: Side, c: seq<Level>) {
    forall i, j :: 0 <= i < j < |c| ==> Better(side, c[i].price, c[j].price)
  }

  predicate Agrees(m: PriceMap, c: seq<Level>) {
    forall i :: 0 <= i < |c| ==> c[i].price in m && m[c[i].price] == c[i].qty
  }

  predicate Listed(c: seq<Level>, p: int) {
    exists i :: 0 <= i < |c| && c[i].price == p
  }

  /** `c` lists the best `n` levels of `m` (all of them when there are fewer), best first. */
  ghost predicate IsBest(side: Side, m: PriceMap, n: nat, c: seq<Level>) {
    && Sorted(side, c)
    && Agrees(m, c)
    && |c| == Min(n, |m|)
    && forall p, i :: p in m && !Listed(c, p) && 0 <= i < |c| ==> Better(side, c[i].price, p)
  }

  /** The invariant of a cache: it holds the whole side, or at least the visible levels. */
  ghost predicate CacheInv(side: Side, m: PriceMap, c: seq<Level>) {
    && |c| <= CAPACITY
    && Sorted(side, c)
    && Agrees(m, c)
    && (AllCached(m, c) || UncachedBelowVisible(side, m, c))
  }

  ghost predicate AllCached(m: PriceMap, c: seq<Level>) {
    forall p :: p in m ==> Listed(c, p)
  }

  ghost predicate UncachedBelowVisible(side: Side, m: PriceMap, c: seq<Level>) {
    && VISIBLE <= |c|
    && forall p :: p in m && !Listed(c, p) ==> Better(side, c[VISIBLE - 1].price, p)
  }

  // ---- Reference: the best levels of a map ----

  ghost predicate IsTop(side: Side, m: PriceMap, p: int) {
    p in m && forall q :: q in m && q != p ==> Better(side, p, q)
  }

  lemma SomeMember<T>(s: set<T>) returns (k: T)
    requires |s| > 0
    ensures k in s
  {
    assert s != {};
    k :| k in s;
  }

  lemma {:induction false} TopExists(side: Side, m: PriceMap)
    requires |m| > 0
    ensures exists p :: IsTop(side, m, p)
    decreases |m|
  {
    var k := SomeMember(m.Keys);
    var rest := m - {k};
    assert forall q :: q in m && q != k ==> q in rest;
    if |rest| == 0 {
      assert IsTop(side, m, k);
    } else {
      TopExists(side, rest);
      var r :| IsTop(side, rest, r);
      assert IsTop(side, m, if Better(side, k, r) then k else r);
    }
  }

  ghost function TopPrice(side: Side, m: PriceMap): (p: int)
    requires |m| > 0
    ensures IsTop(side, m, p)
  {
    TopExists(side, m);
    var p :| IsTop(side, m, p);
    p
  }

  ghost function Best(side: Side, m: PriceMap, n: nat): seq<Level>
    decreases n
  {
    if n == 0 || |m| == 0 then []
    else var p := TopPrice(side, m); [Level(p, m[p])] + Best(side, m - {p}, n - 1)
  }

  lemma {:induction false} BestIsBest(side: Side, m: PriceMap, n: nat)
    ensures IsBest(side, m, n, Best(side, m, n))
    decreases n
  {
    if n > 0 && |m| > 0 {
      var p := TopPrice(side, m);
      var tail := Best(side, m - {p}, n - 1);
      assert Best(side, m, n) == [Level(p, m[p])] + tail;
      BestIsBest(side, m - {p}, n - 1);
      ConsIsBest(side, m, n, p, tail);
    } else {
      NoneIsBest(side, m, n);
    }
  }

  lemma NoneIsBest(side: Side, m: PriceMap, n: nat)
    requires n == 0 || |m| == 0
    ensures IsBest(side, m, n, [])
  {
  }

  lemma ConsIsBest(side: Side, m: PriceMap, n: nat, p: int, tail: seq<Level>)
    requires IsTop(side, m, p) && n > 0
    requires IsBest(side, m - {p}, n - 1, tail)
    ensures IsBest(side, m, n, [Level(p, m[p])] + tail)
  {
    var rest, c := m - {p}, [Level(p, m[p])] + tail;
    assert |m.Keys| == |rest.Keys| + 1 by { assert m.Keys == rest.Keys + {p}; }
    assert c[0].price == p && c[1..] == tail;
    assert Sorted(side, c);
    forall q, i | q in m && !Listed(c, q) && 0 <= i < |c|
      ensures Better(side, c[i].price, q)
    {
      UncachedInTail(c, q);
      assert i > 0 ==> c[i] == tail[i - 1];
    }
  }

  lemma UncachedInTail(c: seq<Level>, q: int)
    requires c != [] && !Listed(c, q)
    ensures q != c[0].price && !Listed(c[1..], q)
  {
    assert forall j :: 0 <= j < |c| - 1 ==> c[1..][j] == c[j + 1];
  }

  /** There is only one list of best levels, so any procedure that reaches one reaches this one. */
  lemma {:induction false} BestIsUnique(side: Side, m: PriceMap, n: nat, c: seq<Level>, d: seq<Level>)
    requires IsBest(side, m, n, c)
    requires IsBest(side, m, n, d)
    ensures c == d
    decreases n
  {
    if |c| != 0 {
      HeadIsBestOfAll(side, m, n, c);
      HeadIsBestOfAll(side, m, n, d);
      assert c[0] == d[0];
      TailOfBest(side, m, n, c);
      TailOfBest(side, m, n, d);
      BestIsUnique(side, m - {c[0].price}, n - 1, c[1..], d[1..]);
      assert c == [c[0]] + c[1..] && d == [d[0]] + d[1..];
    }
  }

  lemma HeadIsBestOfAll(side: Side, m: PriceMap, n: nat, c: seq<Level>)
    requires IsBest(side, m, n, c) && |c| > 0
    ensures forall p :: p in m && p != c[0].price ==> Better(side, c[0].price, p)
  {
    forall p | p in m && p != c[0].price
      ensures Better(side, c[0].price, p)
    {
      if Listed(c, p) {
        var i :| 0 <= i < |c| && c[i].price == p;
      }
    }
  }

  lemma TailOfBest(side: Side, m: PriceMap, n: nat, c: seq<Level>)
    requires IsBest(side, m, n, c) && |c| > 0
    ensures n > 0 && IsBest(side, m - {c[0].price}, n - 1, c[1..])
  {
    var p := c[0].price;
    var rest, d := m - {p}, c[1..];
    assert |m.Keys| == |rest.Keys| + 1 by { assert m.Keys == rest.Keys + {p}; }
    forall q, i | q in rest && !Listed(d, q) && 0 <= i < |d|
      ensures Better(side, d[i].price, q)
    {
      assert forall j :: 0 < j < |c| ==> c[j] == d[j - 1];
      assert !Listed(c, q);
      assert d[i] == c[i + 1];
    }
  }

  // ---- What the cache shows ----

  function PriceSet(c: seq<Level>): set<int> {
    set i | 0 <= i < |c| :: c[i].price
  }

  lemma PriceSetSnoc(c: seq<Level>)
    requires c != []
    ensures PriceSet(c) == PriceSet(c[..|c| - 1]) + {c[|c| - 1].price}
  {
    var d, last := c[..|c| - 1], c[|c| - 1].price;
    forall p | p in PriceSet(c) ensures p in PriceSet(d) + {last} {
      var i :| 0 <= i < |c| && c[i].price == p;
      assert i < |d| ==> d[i] == c[i];
    }
    forall p | p in PriceSet(d) ensures p in PriceSet(c) {
      var i :| 0 <= i < |d| && d[i].price == p;
      assert c[i].price == p;
    }
  }

  lemma {:induction false} PriceSetSize(side: Side, c: seq<Level>)
    requires Sorted(side, c)
    ensures |PriceSet(c)| == |c|
  {
    if c != [] {
      var d, last := c[..|c| - 1], c[|c| - 1].price;
      PriceSetSize(side, d);
      PriceSetSnoc(c);
      assert forall i :: 0 <= i < |d| ==> Better(side, d[i].price, last);
      assert last !in PriceSet(d);
    }
  }

  lemma CacheSize(side: Side, m: PriceMap, c: seq<Level>)
    requires Sorted(side, c) && Agrees(m, c)
    ensures |c| <= |m|
    ensures AllCached(m, c) <==> |c| == |m|
  {
    PriceSetSize(side, c);
    var ps := PriceSet(c);
    assert ps <= m.Keys;
    SubsetSize(ps, m.Keys);
    if AllCached(m, c) {
      forall p | p in m.Keys ensures p in ps {
        var i :| 0 <= i < |c| && c[i].price == p;
      }
      assert m.Keys == ps;
    } else if |c| == |m| {
      var p :| p in m && !Listed(c, p);
      SubsetSize(ps, m.Keys - {p});
    }
  }

  lemma SubsetSize(a: set<int>, b: set<int>)
    requires a <= b
    ensures |a| <= |b|
  {
    assert b == a + (b - a);
  }

  /** Whatever the cache holds beyond it, its visible part is the best five levels of the map. */
  lemma VisibleIsBest(side: Side, m: PriceMap, c: seq<Level>)
    requires CacheInv(side, m, c)
    ensures c[..Min(VISIBLE, |c|)] == Best(side, m, VISIBLE)
  {
    var v := c[..Min(VISIBLE, |c|)];
    CacheSize(side, m, c);
    forall p, i | p in m && !Listed(v, p) && 0 <= i < |v|
      ensures Better(side, v[i].price, p)
    {
      if Listed(c, p) {
        var j :| 0 <= j < |c| && c[j].price == p;
        assert forall k :: 0 <= k < |v| ==> v[k] == c[k];
      }
    }
    assert IsBest(side, m, VISIBLE, v);
    BestIsBest(side, m, VISIBLE);
    BestIsUnique(side, m, VISIBLE, v, Best(side, m, VISIBLE));
  }

  lemma BestKeepsInv(side: Side, m: PriceMap)
    ensures CacheInv(side, m, Best(side, m, CAPACITY))
  {
    var c := Best(side, m, CAPACITY);
    BestIsBest(side, m, CAPACITY);
    CacheSize(side, m, c);
  }

  // ---- The cache operations ----

  /** Position of `p` from `i` on, or the length when it is not there. */
  function FindFrom(c: seq<Level>, p: int, i: nat): (k: nat)
    requires i <= |c|
    ensures i <= k <= |c|
    ensures k < |c| ==> c[k].price == p
    ensures forall j :: i <= j < k ==> c[j].price != p
    decreases |c| - i
  {
    if i == |c| || c[i].price == p then i else FindFrom(c, p, i + 1)
  }

  function IndexOf(c: seq<Level>, p: int): (k: nat)
    ensures k <= |c|
    ensures k < |c| ==> c[k].price == p
    ensures k == |c| <==> !Listed(c, p)
  {
    FindFrom(c, p, 0)
  }

  function RemovePrice(c: seq<Level>, p: int): seq<Level> {
    var i := IndexOf(c, p);
    if i == |c| then c else c[..i] + c[i + 1..]
  }

  /** First position from `i` on whose level is not better than `p`. */
  function NotBetterFrom(side: Side, c: seq<Level>, p: int, i: nat): (k: nat)
    requires i <= |c|
    ensures i <= k <= |c|
    ensures forall j :: i <= j < k ==> Better(side, c[j].price, p)
    ensures k < |c| ==> !Better(side, c[k].price, p)
    decreases |c| - i
  {
    if i == |c| || !Better(side, c[i].price, p) then i else NotBetterFrom(side, c, p, i + 1)
  }

  function InsertAt(side: Side, c: seq<Level>, p: int): (k: nat)
    ensures k <= |c|
    ensures forall j :: 0 <= j < k ==> Better(side, c[j].price, p)
    ensures k < |c| ==> !Better(side, c[k].price, p)
  {
    NotBetterFrom(side, c, p, 0)
  }

  function Insert(side: Side, c: seq<Level>, l: Level): seq<Level> {
    var i := InsertAt(side, c, l.price);
    c[..i] + [l] + c[i..]
  }

  function Upsert(side: Side, c: seq<Level>, l: Level): seq<Level> {
    if |c| == CAPACITY && !Better(side, l.price, c[CAPACITY - 1].price) then c
    else Insert(side, c, l)[..Min(CAPACITY, |c| + 1)]
  }

  lemma RemoveKeepsSorted(side: Side, c: seq<Level>, p: int)
    requires Sorted(side, c)
    ensures Sorted(side, RemovePrice(c, p))
    ensures forall q :: Listed(RemovePrice(c, p), q) <==> Listed(c, q) && q != p
  {
    var i, d := IndexOf(c, p), RemovePrice(c, p);
    if i < |c| {
      assert forall j :: 0 <= j < |d| ==> d[j] == if j < i then c[j] else c[j + 1];
      forall q ensures Listed(d, q) <==> Listed(c, q) && q != p {
        if Listed(c, q) && q != p {
          var j :| 0 <= j < |c| && c[j].price == q;
          assert d[if j < i then j else j - 1].price == q;
        }
      }
    }
  }

  lemma InsertShape(side: Side, c: seq<Level>, l: Level)
    ensures var d, i := Insert(side, c, l), InsertAt(side, c, l.price);
      |d| == |c| + 1 &&
      forall j :: 0 <= j < |d| ==> d[j] == if j < i then c[j] else if j == i then l else c[j - 1]
  {
  }

  lemma InsertCaches(side: Side, c: seq<Level>, l: Level, q: int)
    ensures Listed(Insert(side, c, l), q) <==> Listed(c, q) || q == l.price
  {
    var i, d := InsertAt(side, c, l.price), Insert(side, c, l);
    InsertShape(side, c, l);
    if q == l.price {
      assert d[i].price == q;
    } else if Listed(c, q) {
      var j :| 0 <= j < |c| && c[j].price == q;
      assert d[if j < i then j else j + 1].price == q;
    }
  }

  lemma InsertSorted(side: Side, c: seq<Level>, l: Level)
    requires Sorted(side, c) && !Listed(c, l.price)
    ensures Sorted(side, Insert(side, c, l))
  {
    InsertShape(side, c, l);
    var i := InsertAt(side, c, l.price);
    assert i < |c| ==> Better(side, l.price, c[i].price);
  }

  lemma InsertKeepsSorted(side: Side, c: seq<Level>, l: Level)
    requires Sorted(side, c) && !Listed(c, l.price)
    ensures Sorted(side, Insert(side, c, l))
    ensures forall q :: Listed(Insert(side, c, l), q) <==> Listed(c, q) || q == l.price
  {
    InsertSorted(side, c, l);
    forall q ensures Listed(Insert(side, c, l), q) <==> Listed(c, q) || q == l.price {
      InsertCaches(side, c, l, q);
    }
  }

  /** Inserting a fresh price into the best 64 of a map gives the best 64 of the larger map: the
      step of a rebuild, whatever the order in which the prices come. */
  lemma UpsertExtendsBest(side: Side, m: PriceMap, c: seq<Level>, l: Level)
    requires IsBest(side, m, CAPACITY, c)
    requires l.price !in m
    ensures IsBest(side, m[l.price := l.qty], CAPACITY, Upsert(side, c, l))
  {
    var m' := m[l.price := l.qty];
    if |c| == CAPACITY && !Better(side, l.price, c[CAPACITY - 1].price) {
      WorseStaysOut(side, m, c, l);
    } else {
      assert !Listed(c, l.price);
      OneMoreLevel(m, l);
      InsertKeepsSorted(side, c, l);
      InsertAgrees(side, m, c, l);
      InsertShape(side, c, l);
      TrimIsBest(side, m, m', c, Insert(side, c, l), Upsert(side, c, l), l);
    }
  }

  lemma WorseStaysOut(side: Side, m: PriceMap, c: seq<Level>, l: Level)
    requires IsBest(side, m, CAPACITY, c) && |c| == CAPACITY
    requires l.price !in m && !Better(side, l.price, c[CAPACITY - 1].price)
    ensures IsBest(side, m[l.price := l.qty], CAPACITY, c)
  {
    assert !Listed(c, l.price);
    assert Better(side, c[CAPACITY - 1].price, l.price);
    OneMoreLevel(m, l);
  }

  lemma OneMoreLevel(m: PriceMap, l: Level)
    requires l.price !in m
    ensures |m[l.price := l.qty]| == |m| + 1
  {
    var m' := m[l.price := l.qty];
    assert |m'.Keys| == |m.Keys| + 1 by { assert m'.Keys == m.Keys + {l.price}; }
  }

  lemma TrimIsBest(side: Side, m: PriceMap, m': PriceMap, c: seq<Level>, d: seq<Level>, e: seq<Level>, l: Level)
    requires IsBest(side, m, CAPACITY, c) && l.price !in m && m' == m[l.price := l.qty]
    requires |m'| == |m| + 1 && |d| == |c| + 1 && e == d[..Min(CAPACITY, |d|)]
    requires Sorted(side, d) && Agrees(m', d)
    requires forall q :: Listed(d, q) <==> Listed(c, q) || q == l.price
    requires |c| == CAPACITY ==> d[CAPACITY] == c[CAPACITY - 1]
    ensures IsBest(side, m', CAPACITY, e)
  {
    forall q, i | q in m' && !Listed(e, q) && 0 <= i < |e|
      ensures Better(side, e[i].price, q)
    {
      if Listed(d, q) {
        var j :| 0 <= j < |d| && d[j].price == q;
        assert forall k :: 0 <= k < |e| ==> e[k] == d[k];
      } else {
        assert !Listed(c, q) && q in m;
        CacheSize(side, m, c);
        assert |c| == CAPACITY;
        assert Better(side, d[CAPACITY].price, q);
        assert Better(side, d[i].price, d[CAPACITY].price);
      }
    }
  }

  // ---- One side under updates ----

  datatype SideState = SideState(levels: PriceMap, cache: seq<Level>)

  ghost predicate SideInv(side: Side, s: SideState) {
    CacheInv(side, s.levels, s.cache)
  }

  /** Applies one absolute level: quantity zero deletes, anything else sets. */
  ghost function ApplyLevel(side: Side, s: SideState, l: Level): SideState {
    var visible := IndexOf(s.cache, l.price) < Min(VISIBLE, |s.cache|);
    var c := RemovePrice(s.cache, l.price);
    if l.qty == 0 then
      var m := s.levels - {l.price};
      SideState(m, if visible || |c| < VISIBLE then Best(side, m, CAPACITY) else c)
    else
      SideState(s.levels[l.price := l.qty], Upsert(side, c, l))
  }

  lemma DeleteKeepsInv(side: Side, s: SideState, l: Level)
    requires SideInv(side, s) && l.qty == 0
    ensures SideInv(side, ApplyLevel(side, s, l))
  {
    BestKeepsInv(side, s.levels - {l.price});
    if VISIBLE <= |RemovePrice(s.cache, l.price)| && Min(VISIBLE, |s.cache|) <= IndexOf(s.cache, l.price) {
      HiddenDeleteKeepsInv(side, s, l.price);
    }
  }

  /** Deleting below the visible levels leaves them, and all that is uncached, where they were. */
  lemma HiddenDeleteKeepsInv(side: Side, s: SideState, p: int)
    requires SideInv(side, s)
    requires VISIBLE <= |RemovePrice(s.cache, p)| && VISIBLE <= IndexOf(s.cache, p)
    ensures CacheInv(side, s.levels - {p}, RemovePrice(s.cache, p))
  {
    var c, m := RemovePrice(s.cache, p), s.levels - {p};
    RemoveKeepsSorted(side, s.cache, p);
    RemoveShape(s.cache, p);
    assert c[VISIBLE - 1] == s.cache[VISIBLE - 1];
    if AllCached(s.levels, s.cache) {
      assert AllCached(m, c);
    } else {
      assert UncachedBelowVisible(side, m, c);
    }
  }

  lemma RemoveShape(c: seq<Level>, p: int)
    ensures var d, i := RemovePrice(c, p), IndexOf(c, p);
      |d| == (if i < |c| then |c| - 1 else |c|) &&
      forall j :: 0 <= j < |d| ==> d[j] == if j < i then c[j] else c[j + 1]
  {
  }

  lemma SetKeepsInv(side: Side, s: SideState, l: Level)
    requires SideInv(side, s) && l.qty != 0
    ensures SideInv(side, ApplyLevel(side, s, l))
  {
    var i := IndexOf(s.cache, l.price);
    if i < |s.cache| {
      ReinsertIsInPlace(side, s.cache, i, l);
      ReplaceKeepsInv(side, s, i, l);
    } else {
      UpsertKeepsInv(side, s, l);
    }
  }

  lemma {:induction false} StopsAt(side: Side, c: seq<Level>, p: int, i: nat, k: nat)
    requires i <= k <= |c|
    requires forall j :: i <= j < k ==> Better(side, c[j].price, p)
    requires k < |c| ==> !Better(side, c[k].price, p)
    ensures NotBetterFrom(side, c, p, i) == k
    decreases k - i
  {
    if i < k {
      StopsAt(side, c, p, i + 1, k);
    }
  }

  /** Removing a cached price and inserting it again puts it back where it was. */
  lemma ReinsertIsInPlace(side: Side, c: seq<Level>, i: nat, l: Level)
    requires Sorted(side, c) && |c| <= CAPACITY
    requires i < |c| && i == IndexOf(c, l.price)
    ensures Upsert(side, RemovePrice(c, l.price), l) == c[i := l]
  {
    var r := RemovePrice(c, l.price);
    RemoveShape(c, l.price);
    assert forall j :: 0 <= j < i ==> Better(side, r[j].price, l.price);
    assert i < |r| ==> !Better(side, r[i].price, l.price);
    StopsAt(side, r, l.price, 0, i);
    Rejoin(c, i, l);
  }

  lemma Rejoin(c: seq<Level>, i: nat, l: Level)
    requires i < |c|
    ensures var r := c[..i] + c[i + 1..]; (r[..i] + [l] + r[i..])[..|c|] == c[i := l]
  {
  }

  lemma ReplaceKeepsInv(side: Side, s: SideState, i: nat, l: Level)
    requires SideInv(side, s) && i < |s.cache| && s.cache[i].price == l.price
    ensures CacheInv(side, s.levels[l.price := l.qty], s.cache[i := l])
  {
    var c, d := s.cache, s.cache[i := l];
    assert forall j :: 0 <= j < |d| ==> d[j].price == c[j].price;
    ReplaceCaches(c, i, l);
  }

  lemma ReplaceCaches(c: seq<Level>, i: nat, l: Level)
    requires i < |c| && c[i].price == l.price
    ensures forall q :: Listed(c[i := l], q) <==> Listed(c, q)
  {
    var d := c[i := l];
    forall q ensures Listed(d, q) <==> Listed(c, q) {
      if Listed(c, q) {
        var j :| 0 <= j < |c| && c[j].price == q;
        assert d[j].price == q;
      }
    }
  }

  lemma UpsertKeepsInv(side: Side, s: SideState, l: Level)
    requires SideInv(side, s) && !Listed(s.cache, l.price)
    ensures CacheInv(side, s.levels[l.price := l.qty], Upsert(side, s.cache, l))
  {
    var c, m' := s.cache, s.levels[l.price := l.qty];
    if |c| == CAPACITY && !Better(side, l.price, c[CAPACITY - 1].price) {
      assert Better(side, c[CAPACITY - 1].price, l.price);
      assert UncachedBelowVisible(side, m', c);
    } else {
      InsertKeepsInv(side, s, l);
      TrimKeepsInv(side, m', Insert(side, c, l));
    }
  }

  lemma InsertKeepsInv(side: Side, s: SideState, l: Level)
    requires SideInv(side, s) && !Listed(s.cache, l.price)
    ensures var m, d := s.levels[l.price := l.qty], Insert(side, s.cache, l);
      && Sorted(side, d)
      && Agrees(m, d)
      && (AllCached(m, d) || UncachedBelowVisible(side, m, d))
  {
    InsertKeepsSorted(side, s.cache, l);
    InsertAgrees(side, s.levels, s.cache, l);
    if !AllCached(s.levels, s.cache) {
      InsertKeepsVisible(side, s.levels, s.cache, l);
    }
  }

  lemma InsertAgrees(side: Side, m: PriceMap, c: seq<Level>, l: Level)
    requires Agrees(m, c) && !Listed(c, l.price)
    ensures Agrees(m[l.price := l.qty], Insert(side, c, l))
  {
    InsertShape(side, c, l);
  }

  lemma InsertKeepsVisible(side: Side, m: PriceMap, c: seq<Level>, l: Level)
    requires Sorted(side, c) && !Listed(c, l.price) && UncachedBelowVisible(side, m, c)
    ensures UncachedBelowVisible(side, m[l.price := l.qty], Insert(side, c, l))
  {
    var d, v := Insert(side, c, l), VISIBLE - 1;
    InsertShape(side, c, l);
    InsertSorted(side, c, l);
    assert d[v] == c[v] || Better(side, d[v].price, c[v].price);
    forall q | q in m[l.price := l.qty] && !Listed(d, q) ensures Better(side, d[v].price, q) {
      InsertCaches(side, c, l, q);
    }
  }

  lemma TrimKeepsInv(side: Side, m: PriceMap, d: seq<Level>)
    requires |d| <= CAPACITY + 1
    requires Sorted(side, d) && Agrees(m, d)
    requires AllCached(m, d) || UncachedBelowVisible(side, m, d)
    ensures CacheInv(side, m, d[..Min(CAPACITY, |d|)])
  {
    var e := d[..Min(CAPACITY, |d|)];
    if |d| <= CAPACITY {
      assert e == d;
    } else {
      forall q | q in m && !Listed(e, q) ensures Better(side, e[VISIBLE - 1].price, q) {
        if Listed(d, q) {
          var j :| 0 <= j < |d| && d[j].price == q;
          assert forall k :: 0 <= k < |e| ==> e[k] == d[k];
        }
      }
    }
  }

  lemma ApplyKeepsInv(side: Side, s: SideState, l: Level)
    requires SideInv(side, s)
    ensures SideInv(side, ApplyLevel(side, s, l))
  {
    if l.qty == 0 {
      DeleteKeepsInv(side, s, l);
    } else {
      SetKeepsInv(side, s, l);
    }
  }

  ghost function ApplyLevels(side: Side, s: SideState, ls: seq<Level>): SideState {
    if ls == [] then s
    else ApplyLevel(side, ApplyLevels(side, s, ls[..|ls| - 1]), ls[|ls| - 1])
  }

  /** Every list of updates keeps the cache invariant. */
  lemma {:induction false} UpdatesKeepInv(side: Side, s: SideState, ls: seq<Level>)
    requires SideInv(side, s)
    ensures SideInv(side, ApplyLevels(side, s, ls))
  {
    if ls != [] {
      var t, l := ApplyLevels(side, s, ls[..|ls| - 1]), ls[|ls| - 1];
      UpdatesKeepInv(side, s, ls[..|ls| - 1]);
      ApplyKeepsInv(side, t, l);
    }
  }

  // ---- Exactly when the cache stays the best 64 levels ----

  ghost predicate CacheIsBest(side: Side, s: SideState) {
    s.cache == Best(side, s.levels, CAPACITY)
  }

  /** The deletes that take no rebuild although levels wait outside the cache. */
  ghost predicate LeavesHole(s: SideState, l: Level) {
    l.qty == 0 && VISIBLE <= IndexOf(s.cache, l.price) < |s.cache| && |s.levels| > CAPACITY
  }

  lemma BestIff(side: Side, m: PriceMap, c: seq<Level>)
    ensures c == Best(side, m, CAPACITY) <==> IsBest(side, m, CAPACITY, c)
  {
    BestIsBest(side, m, CAPACITY);
    if IsBest(side, m, CAPACITY, c) {
      BestIsUnique(side, m, CAPACITY, c, Best(side, m, CAPACITY));
    }
  }

  lemma OneLevelLess(m: PriceMap, p: int)
    ensures |m - {p}| == if p in m then |m| - 1 else |m|
  {
    var rest := m - {p};
    if p in m {
      assert |m.Keys| == |rest.Keys| + 1 by { assert m.Keys == rest.Keys + {p}; }
    } else {
      assert rest == m;
    }
  }

  /** From a cache that is the best 64 levels, an update leads to one exactly when it is not the
      delete of a cached, hidden level while more than 64 levels exist. */
  lemma ApplyKeepsBestIff(side: Side, s: SideState, l: Level)
    requires CacheIsBest(side, s)
    ensures CacheIsBest(side, ApplyLevel(side, s, l)) <==> !LeavesHole(s, l)
  {
    BestIff(side, s.levels, s.cache);
    if l.qty == 0 {
      DeleteKeepsBestIff(side, s, l);
    } else {
      SetKeepsBest(side, s, l);
    }
  }

  lemma DeleteKeepsBestIff(side: Side, s: SideState, l: Level)
    requires IsBest(side, s.levels, CAPACITY, s.cache) && l.qty == 0
    ensures CacheIsBest(side, ApplyLevel(side, s, l)) <==> !LeavesHole(s, l)
  {
    var c, m := RemovePrice(s.cache, l.price), s.levels - {l.price};
    RemoveShape(s.cache, l.price);
    OneLevelLess(s.levels, l.price);
    if !(IndexOf(s.cache, l.price) < Min(VISIBLE, |s.cache|) || |c| < VISIBLE) {
      BestIff(side, m, c);
      if !LeavesHole(s, l) {
        RemovedIsBest(side, s, l.price);
      }
    }
  }

  /** Removing a level of a fully cached side, or one that is not cached, leaves the best levels. */
  lemma RemovedIsBest(side: Side, s: SideState, p: int)
    requires IsBest(side, s.levels, CAPACITY, s.cache)
    requires IndexOf(s.cache, p) == |s.cache| || |s.levels| <= CAPACITY
    ensures IsBest(side, s.levels - {p}, CAPACITY, RemovePrice(s.cache, p))
  {
    var c, m := RemovePrice(s.cache, p), s.levels - {p};
    RemoveShape(s.cache, p);
    RemoveKeepsSorted(side, s.cache, p);
    OneLevelLess(s.levels, p);
    CacheSize(side, s.levels, s.cache);
    if IndexOf(s.cache, p) < |s.cache| {
      assert forall q :: q in m ==> Listed(c, q);
    }
  }

  lemma SetKeepsBest(side: Side, s: SideState, l: Level)
    requires IsBest(side, s.levels, CAPACITY, s.cache) && l.qty != 0
    ensures CacheIsBest(side, ApplyLevel(side, s, l))
  {
    var i, m' := IndexOf(s.cache, l.price), s.levels[l.price := l.qty];
    BestIff(side, m', ApplyLevel(side, s, l).cache);
    if i < |s.cache| {
      ReinsertIsInPlace(side, s.cache, i, l);
      ReplaceKeepsBest(side, s, i, l);
    } else if l.price !in s.levels {
      UpsertExtendsBest(side, s.levels, s.cache, l);
    } else {
      SetOutside(side, s, l);
    }
  }

  lemma ReplaceKeepsBest(side: Side, s: SideState, i: nat, l: Level)
    requires IsBest(side, s.levels, CAPACITY, s.cache) && i < |s.cache| && s.cache[i].price == l.price
    ensures IsBest(side, s.levels[l.price := l.qty], CAPACITY, s.cache[i := l])
  {
    var c, d, m' := s.cache, s.cache[i := l], s.levels[l.price := l.qty];
    assert m'.Keys == s.levels.Keys;
    assert |m'| == |m'.Keys| == |s.levels|;
    assert forall j :: 0 <= j < |d| ==> d[j].price == c[j].price;
    ReplaceCaches(c, i, l);
  }

  /** A known level outside the cache changes its quantity: it is worse than all of a full cache. */
  lemma SetOutside(side: Side, s: SideState, l: Level)
    requires IsBest(side, s.levels, CAPACITY, s.cache)
    requires l.price in s.levels && !Listed(s.cache, l.price)
    ensures Upsert(side, s.cache, l) == s.cache
    ensures IsBest(side, s.levels[l.price := l.qty], CAPACITY, s.cache)
  {
    var m' := s.levels[l.price := l.qty];
    assert m'.Keys == s.levels.Keys;
    assert |m'| == |m'.Keys| == |s.levels|;
    CacheSize(side, s.levels, s.cache);
    assert Better(side, s.cache[CAPACITY - 1].price, l.price);
  }

  // ---- "The cache is the best 64 levels" is false ----

  /** Bids of quantity 1 at prices 1..n. */
  function Ladder(n: nat): (m: PriceMap)
    ensures |m| == n
    ensures forall p :: p in m <==> 1 <= p <= n
    ensures forall p :: p in m ==> m[p] == 1
  {
    if n == 0 then map[] else Ladder(n - 1)[n := 1]
  }

  /** A full cache of the top of a ladder. */
  predicate LadderTop(n: nat, c: seq<Level>) {
    |c| == CAPACITY && forall i :: 0 <= i < |c| ==> c[i] == Level(n - i, 1)
  }

  /** More than 64 bids at prices n..1: deleting a cached level that is not visible leaves a hole,
      and the next new level, price 0, fills it although price 1 is better and stays uncached. */
  lemma CacheCanMissBetterLevel(n: nat)
    requires n > 64
    ensures var s0 := SideState(Ladder(n), Best(Bid, Ladder(n), 64));
            var s := ApplyLevel(Bid, ApplyLevel(Bid, s0, Level(n - 55, 0)), Level(0, 1));
      Listed(s.cache, 0) && 1 in s.levels && !Listed(s.cache, 1)
  {
    var c := Best(Bid, Ladder(n), CAPACITY);
    LadderBest(n);
    HiddenDelete(n, Ladder(n), c);
    HoleIsFilled(n, c);
  }

  lemma HiddenDelete(n: nat, m: PriceMap, c: seq<Level>)
    requires n > CAPACITY && LadderTop(n, c)
    ensures ApplyLevel(Bid, SideState(m, c), Level(n - 55, 0)) == SideState(m - {n - 55}, RemovePrice(c, n - 55))
  {
    assert c[55].price == n - 55;
    RemoveShape(c, n - 55);
  }

  lemma HoleIsFilled(n: nat, c: seq<Level>)
    requires n > CAPACITY && LadderTop(n, c)
    ensures var d := Upsert(Bid, RemovePrice(RemovePrice(c, n - 55), 0), Level(0, 1)); Listed(d, 0) && !Listed(d, 1)
  {
    assert c[55].price == n - 55;
    var d := RemovePrice(c, n - 55);
    RemoveShape(c, n - 55);
    assert forall i :: 0 <= i < |d| ==> d[i].price > 1;
    assert !Listed(d, 0);
    assert RemovePrice(d, 0) == d;
    assert Upsert(Bid, d, Level(0, 1)) == Insert(Bid, d, Level(0, 1));
    InsertCaches(Bid, d, Level(0, 1), 0);
    InsertCaches(Bid, d, Level(0, 1), 1);
  }

  lemma LadderBest(n: nat)
    requires n > CAPACITY
    ensures LadderTop(n, Best(Bid, Ladder(n), CAPACITY))
  {
    var m := Ladder(n);
    var c := seq(CAPACITY, i requires 0 <= i < CAPACITY => Level(n - i, 1));
    forall p | p in m && n - CAPACITY < p ensures Listed(c, p) {
      assert c[n - p].price == p;
    }
    assert IsBest(Bid, m, CAPACITY, c);
    BestIsBest(Bid, m, CAPACITY);
    BestIsUnique(Bid, m, CAPACITY, c, Best(Bid, m, CAPACITY));
  }
}
