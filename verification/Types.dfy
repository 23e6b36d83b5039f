/** Values shared by every part of the model: levels, depth events, timestamps. */
module MarketTypes {

  const UINT64_BOUND: nat := 0x1_0000_0000_0000_0000
  const UINT64_MAX: nat := 0xFFFF_FFFF_FFFF_FFFF

  type Uint64 = x: int | 0 <= x < UINT64_BOUND

  datatype Option<+T> = None | Some(value: T)

  datatype Venue = Spot | Usdm

  datatype Side = Bid | Ask

  datatype Timestamp = Timestamp(tsec: int, tnsec: int)

  /** Absolute quantity at a price, both scaled to integers. */
  datatype Level = Level(price: int, qty: int)

  /** A parsed diff, partial-depth or REST snapshot message. `firstId`, `finalId` and `prevId`
      are the exchange's U, u and pu. */
  datatype DepthEvent = DepthEvent(
    firstId: Uint64,
    finalId: Uint64,
    prevId: Uint64,
    lastUpdateId: Uint64,
    eventTimeMs: int,
    appliedTime: Timestamp,
    bids: seq<Level>,
    asks: seq<Level>)
  {
    function Levels(side: Side): seq<Level> {
      if side.Bid? then bids else asks
    }
  }

  function Min(a: int, b: int): int {
    if a < b then a else b
  }

  function Max(a: int, b: int): int {
    if a < b then b else a
  }

  lemma SplitLast<T>(a: seq<T>, b: seq<T>)
    requires b != []
    ensures b == b[..|b| - 1] + [b[|b| - 1]]
    ensures a + b == (a + b[..|b| - 1]) + [b[|b| - 1]]
  {
  }

  lemma Assoc<T>(a: seq<T>, b: seq<T>, c: seq<T>)
    ensures (a + b) + c == a + (b + c)
  {
  }

  lemma SnocPrefix<T>(a: seq<T>, b: seq<T>)
    requires |a| < |b| && a == b[..|a|]
    ensures a + [b[|a|]] == b[..|a| + 1]
  {
  }

  lemma PrefixSnoc<T>(a: seq<T>, k: nat)
    requires k < |a|
    ensures a[..k + 1] == a[..k] + [a[k]]
  {
  }

  lemma SnocSlices<T>(a: seq<T>, x: T)
    ensures (a + [x])[..|a|] == a && (a + [x])[..|a| + 1] == a + [x] && (a + [x])[|a|] == x
  {
  }

  lemma HeadOfSuffix<T>(a: seq<T>, k: nat)
    requires k < |a|
    ensures a[k..] == [a[k]] + a[k + 1..]
  {
  }

  lemma ThreeParts<T>(a: seq<T>, i: nat, k: nat)
    requires i <= k <= |a|
    ensures a == a[..i] + a[i..k] + a[k..]
  {
  }

  lemma SuffixParts<T>(a: seq<T>, i: nat, c: nat)
    requires i + c <= |a|
    ensures a[i..][..c] == a[i..i + c] && a[i..][c..] == a[i + c..]
  {
  }

  lemma DivModOf(x: nat, q: nat, c: nat, r: nat)
    requires r < c && x == q * c + r
    ensures x / c == q && x % c == r
  {
    var d := x / c - q;
    assert d * c == r - x % c;
    assert d >= 1 ==> d * c >= c;
    assert d <= -1 ==> d * c + c <= 0;
  }
}
