/** What the payloads of the exchange parse to, field by field and in the order and number in which their
    members happen to come. */
module Messages {
  import opened MarketTypes
  import opened Decimal
  import opened DepthParser

  // ---- What a payload says, by its keys ----

  /** The number under a key: the last one when there are several, 0 when there is none. A string reads as
      0. */
  function NumberUnder(fs: seq<Field>, key: string): Uint64 {
    if fs == [] then 0
    else
      var f := fs[|fs| - 1];
      if f.key != key || f.Book? then NumberUnder(fs[..|fs| - 1], key)
      else if f.Number? then f.n
      else 0
  }

  /** The pairs of all level arrays under a long or short key, in order. */
  function PairsUnder(fs: seq<Field>, long: string, short: string): seq<Pair> {
    if fs == [] then []
    else
      var f := fs[|fs| - 1];
      PairsUnder(fs[..|fs| - 1], long, short) + if f.Book? && (f.key == long || f.key == short) then f.xs else []
  }

  /** The signed reading of 64 bits. */
  function Signed(n: Uint64): int {
    if n < 0x8000_0000_0000_0000 then n else n - 0x1_0000_0000_0000_0000
  }

  /** The event time: E as it comes; T only while there is no time other than 0. */
  function TimeUnder(fs: seq<Field>): int {
    if fs == [] then 0
    else
      var f, before := fs[|fs| - 1], TimeUnder(fs[..|fs| - 1]);
      var v := if f.Number? then Signed(f.n) else 0;
      if f.Book? then before
      else if f.key == "E" then v
      else if f.key == "T" && before == 0 then v
      else before
  }

  /** Price and quantity of every level are what its two texts denote at eight decimals. */
  ghost predicate Denote(xs: seq<Pair>, ls: seq<Level>) {
    |ls| == |xs| && forall i :: 0 <= i < |xs| ==> PairDenotes(xs[i], ls[i])
  }

  ghost predicate PairDenotes(x: Pair, l: Level) {
    Denotes(x.price, 8, l.price) && Denotes(x.qty, 8, l.qty)
  }

  /** The event holds what the payload says. */
  ghost predicate Holds(fs: seq<Field>, ev: DepthEvent) {
    && ev.firstId == NumberUnder(fs, "U")
    && ev.finalId == NumberUnder(fs, "u")
    && ev.prevId == NumberUnder(fs, "pu")
    && ev.lastUpdateId == NumberUnder(fs, "lastUpdateId")
    && ev.eventTimeMs == TimeUnder(fs)
    && ev.appliedTime == Timestamp(0, 0)
    && Denote(PairsUnder(fs, "bids", "b"), ev.bids)
    && Denote(PairsUnder(fs, "asks", "a"), ev.asks)
  }

  /** A member that can be written: levels under their four keys and nothing else there. */
  predicate IsMember(f: Field) {
    && '"' !in f.key
    && (f.Book? <==> f.key == "bids" || f.key == "b" || f.key == "asks" || f.key == "a")
    && (f.Word? ==> '"' !in f.text)
    && (f.Book? ==> QuoteFree(f.xs))
  }

  // ---- What the parser's reading of members comes to ----

  lemma MemberIsWritable(f: Field)
    ensures IsMember(f) ==> Writable(f)
  {
  }

  lemma {:induction false} MeaningSnoc(ev: DepthEvent, front: seq<Field>, f: Field)
    requires forall x :: x in front + [f] ==> Writable(x)
    ensures forall x :: x in front ==> Writable(x)
    ensures Writable(f) && Meaning(ev, front + [f]) == Effect(Meaning(ev, front), f)
    decreases |front|
  {
    assert f in front + [f];
    assert forall x :: x in front ==> x in front + [f];
    if front == [] {
      assert front + [f] == [f] && [f][1..] == [];
    } else {
      assert (front + [f])[1..] == front[1..] + [f];
      MeaningSnoc(Effect(ev, front[0]), front[1..], f);
    }
  }

  lemma {:induction false} LevelsOfConcat(a: seq<Pair>, b: seq<Pair>)
    ensures LevelsOf(a + b) == LevelsOf(a) + LevelsOf(b)
  {
    if a == [] {
      assert a + b == b;
    } else {
      assert (a + b)[0] == a[0] && (a + b)[1..] == a[1..] + b;
      LevelsOfConcat(a[1..], b);
      Assoc(LevelOf(a[0]), LevelsOf(a[1..]), LevelsOf(b));
    }
  }

  /** The same with the levels as the parser reads them. */
  ghost predicate Says(fs: seq<Field>, ev: DepthEvent) {
    && ev.firstId == NumberUnder(fs, "U")
    && ev.finalId == NumberUnder(fs, "u")
    && ev.prevId == NumberUnder(fs, "pu")
    && ev.lastUpdateId == NumberUnder(fs, "lastUpdateId")
    && ev.eventTimeMs == TimeUnder(fs)
    && ev.appliedTime == Timestamp(0, 0)
    && ev.bids == LevelsOf(PairsUnder(fs, "bids", "b"))
    && ev.asks == LevelsOf(PairsUnder(fs, "asks", "a"))
  }

  lemma {:induction false} MeaningSays(fs: seq<Field>)
    requires forall f :: f in fs ==> IsMember(f)
    ensures forall f :: f in fs ==> Writable(f)
    ensures Says(fs, Meaning(EmptyEvent(), fs))
  {
    if fs != [] {
      var front, f := fs[..|fs| - 1], fs[|fs| - 1];
      assert f in fs && forall x :: x in front ==> x in fs;
      MeaningSays(front);
      SplitLast([], fs);
      assert fs == front + [f];
      MemberIsWritable(f);
      MeaningSnoc(EmptyEvent(), front, f);
      OneMoreMember(front, f, Meaning(EmptyEvent(), front));
    }
  }

  lemma OneMoreMember(front: seq<Field>, f: Field, ev: DepthEvent)
    requires IsMember(f) && Writable(f) && Says(front, ev)
    ensures Says(front + [f], Effect(ev, f))
  {
    SnocSlices(front, f);
    match f {
      case Number(key, n) => OneMoreNumber(front, f, ev, n);
      case Word(key, _) => OneMoreNumber(front, f, ev, 0);
      case Book(key, xs) => OneMoreBook(front, f, ev);
    }
  }

  /** What a member that is not a level array counts as. */
  function ValueOf(f: Field): Uint64 {
    if f.Number? then f.n else 0
  }

  lemma NumberSnoc(front: seq<Field>, f: Field, key: string)
    ensures NumberUnder(front + [f], key) ==
            if f.key == key && !f.Book? then ValueOf(f) else NumberUnder(front, key)
  {
    SnocSlices(front, f);
  }

  lemma TimeSnoc(front: seq<Field>, f: Field)
    ensures TimeUnder(front + [f]) ==
      if f.key == "E" && !f.Book? then Signed(ValueOf(f))
      else if f.key == "T" && !f.Book? && TimeUnder(front) == 0 then Signed(ValueOf(f))
      else TimeUnder(front)
  {
    SnocSlices(front, f);
  }

  lemma SignedIsInt64(n: Uint64)
    ensures Signed(n) == ToInt64(n)
  {
  }

  lemma OneMoreNumber(front: seq<Field>, f: Field, ev: DepthEvent, n: Uint64)
    requires !f.Book? && IsMember(f) && Says(front, ev) && n == ValueOf(f)
    ensures Says(front + [f], SetNumber(ev, f.key, n))
  {
    NumberSnoc(front, f, "U");
    NumberSnoc(front, f, "u");
    NumberSnoc(front, f, "pu");
    NumberSnoc(front, f, "lastUpdateId");
    TimeSnoc(front, f);
    SignedIsInt64(n);
    NoMorePairs(front, f, "bids", "b");
    NoMorePairs(front, f, "asks", "a");
    SetOneField(ev, f.key, n);
  }

  /** Each key sets its own field and no other. */
  lemma SetOneField(ev: DepthEvent, key: string, n: Uint64)
    ensures var x := SetNumber(ev, key, n);
      && x.firstId == (if key == "U" then n else ev.firstId)
      && x.finalId == (if key == "u" then n else ev.finalId)
      && x.prevId == (if key == "pu" then n else ev.prevId)
      && x.lastUpdateId == (if key == "lastUpdateId" then n else ev.lastUpdateId)
      && x.eventTimeMs ==
         (if key == "E" || (key == "T" && ev.eventTimeMs == 0) then ToInt64(n) else ev.eventTimeMs)
      && x.appliedTime == ev.appliedTime && x.bids == ev.bids && x.asks == ev.asks
  {
  }

  lemma NoMorePairs(front: seq<Field>, f: Field, long: string, short: string)
    requires !(f.Book? && (f.key == long || f.key == short))
    ensures PairsUnder(front + [f], long, short) == PairsUnder(front, long, short)
  {
    SnocSlices(front, f);
    assert PairsUnder(front, long, short) + [] == PairsUnder(front, long, short);
  }

  lemma MorePairs(front: seq<Field>, f: Field, long: string, short: string)
    requires f.Book? && (f.key == long || f.key == short)
    ensures LevelsOf(PairsUnder(front + [f], long, short)) == LevelsOf(PairsUnder(front, long, short)) + LevelsOf(f.xs)
  {
    SnocSlices(front, f);
    LevelsOfConcat(PairsUnder(front, long, short), f.xs);
  }

  lemma BookSaysNoNumber(front: seq<Field>, f: Field, key: string)
    requires f.Book?
    ensures NumberUnder(front + [f], key) == NumberUnder(front, key) && TimeUnder(front + [f]) == TimeUnder(front)
  {
    SnocSlices(front, f);
  }

  lemma OneMoreBook(front: seq<Field>, f: Field, ev: DepthEvent)
    requires f.Book? && IsMember(f) && Writable(f) && Says(front, ev)
    ensures Says(front + [f], Effect(ev, f))
  {
    BookSaysNoNumber(front, f, "U");
    BookSaysNoNumber(front, f, "u");
    BookSaysNoNumber(front, f, "pu");
    BookSaysNoNumber(front, f, "lastUpdateId");
    if f.key == "bids" || f.key == "b" {
      MorePairs(front, f, "bids", "b");
      NoMorePairs(front, f, "asks", "a");
    } else {
      MorePairs(front, f, "asks", "a");
      NoMorePairs(front, f, "bids", "b");
    }
  }

  // ---- Levels in terms of what their texts denote ----

  lemma LevelDenotes(x: Pair)
    ensures var l := ParseLevel(x.price, x.qty);
      l.Some? ==> PairDenotes(x, l.value)
  {
    var l := ParseLevel(x.price, x.qty);
    if l.Some? {
      ParseIsExact(x.price, 8, l.value.price);
      ParseIsExact(x.qty, 8, l.value.qty);
    }
  }

  lemma {:induction false} LevelsDenote(xs: seq<Pair>)
    requires Readable(xs)
    ensures Denote(xs, LevelsOf(xs))
  {
    if xs != [] {
      LevelDenotes(xs[0]);
      LevelsDenote(xs[1..]);
      DenoteCons(xs[0], xs[1..], ParseLevel(xs[0].price, xs[0].qty).value, LevelsOf(xs[1..]));
      assert xs == [xs[0]] + xs[1..];
    }
  }

  lemma DenoteCons(x: Pair, xs: seq<Pair>, l: Level, ls: seq<Level>)
    requires Denote(xs, ls) && PairDenotes(x, l)
    ensures Denote([x] + xs, [l] + ls)
  {
  }

  lemma DenoteTail(xs: seq<Pair>, ls: seq<Level>)
    requires xs != [] && Denote(xs, ls)
    ensures PairDenotes(xs[0], ls[0]) && Denote(xs[1..], ls[1..])
  {
    assert forall i :: 0 <= i < |xs| - 1 ==> xs[1..][i] == xs[i + 1] && ls[1..][i] == ls[i + 1];
  }

  /** Only one list of levels is denoted, and the parser reads it. */
  lemma {:induction false} DenotedIsRead(xs: seq<Pair>, ls: seq<Level>)
    requires Denote(xs, ls)
    ensures Readable(xs) && LevelsOf(xs) == ls
  {
    if xs != [] {
      DenoteTail(xs, ls);
      DenotedLevel(xs[0], ls[0]);
      DenotedIsRead(xs[1..], ls[1..]);
      assert ls == [ls[0]] + ls[1..];
    }
  }

  lemma DenotedLevel(x: Pair, l: Level)
    requires PairDenotes(x, l)
    ensures ParseLevel(x.price, x.qty) == Some(l)
  {
    ParseIsExact(x.price, 8, l.price);
    ParseIsExact(x.qty, 8, l.qty);
  }

  /** Every text of every level denotes a number that fits. */
  ghost predicate Numeric(fs: seq<Field>) {
    forall f :: f in fs && f.Book? ==> exists ls :: Denote(f.xs, ls)
  }

  lemma {:induction false} NumericIsReadable(fs: seq<Field>)
    ensures AllReadable(fs) <==> Numeric(fs)
  {
    if fs != [] {
      NumericIsReadable(fs[1..]);
      assert fs == [fs[0]] + fs[1..];
      if fs[0].Book? {
        OneBookIsReadable(fs[0].xs);
      }
    }
  }

  lemma OneBookIsReadable(xs: seq<Pair>)
    ensures Readable(xs) <==> exists ls :: Denote(xs, ls)
  {
    if Readable(xs) {
      LevelsDenote(xs);
    }
    if ls :| Denote(xs, ls) {
      DenotedIsRead(xs, ls);
    }
  }

  lemma {:induction false} ReadableConcat(a: seq<Pair>, b: seq<Pair>)
    ensures Readable(a + b) <==> Readable(a) && Readable(b)
  {
    if a == [] {
      assert a + b == b;
    } else {
      assert (a + b)[0] == a[0] && (a + b)[1..] == a[1..] + b;
      ReadableConcat(a[1..], b);
    }
  }

  lemma {:induction false} SideIsReadable(fs: seq<Field>, long: string, short: string)
    requires forall f :: f in fs && f.Book? ==> Readable(f.xs)
    ensures Readable(PairsUnder(fs, long, short))
  {
    if fs != [] {
      var front, f := fs[..|fs| - 1], fs[|fs| - 1];
      assert f in fs && forall x :: x in front ==> x in fs;
      SideIsReadable(front, long, short);
      ReadableConcat(PairsUnder(front, long, short), if f.Book? && (f.key == long || f.key == short) then f.xs else []);
    }
  }

  lemma {:induction false} AllReadableMembers(fs: seq<Field>)
    requires AllReadable(fs)
    ensures forall f :: f in fs && f.Book? ==> Readable(f.xs)
  {
    if fs != [] {
      AllReadableMembers(fs[1..]);
      assert fs == [fs[0]] + fs[1..];
    }
  }

  // ---- The law ----

  /** A final id, a snapshot id or some level. */
  predicate SaysSomething(fs: seq<Field>) {
    || NumberUnder(fs, "u") != 0 || NumberUnder(fs, "lastUpdateId") != 0
    || PairsUnder(fs, "bids", "b") != [] || PairsUnder(fs, "asks", "a") != []
  }

  /** A payload of any members in any order is accepted exactly when all its levels are numbers that fit
      and it says something, and the event then holds what it says, field by field. */
  lemma MessageReads(fs: seq<Field>)
    requires forall f :: f in fs ==> IsMember(f)
    ensures var r := ParsePayload(PayloadText(fs));
      (r.Some? <==> Numeric(fs) && SaysSomething(fs)) && (r.Some? ==> Holds(fs, r.value))
  {
    MeaningSays(fs);
    PayloadReadsBack(fs);
    NumericIsReadable(fs);
    if AllReadable(fs) {
      AllReadableMembers(fs);
      SideIsReadable(fs, "bids", "b");
      SideIsReadable(fs, "asks", "a");
      LevelsDenote(PairsUnder(fs, "bids", "b"));
      LevelsDenote(PairsUnder(fs, "asks", "a"));
    }
  }

  // ---- The messages of the exchange ----

  /** A diff of the spot stream. */
  function SpotDiff(time: Uint64, symbol: string, first: Uint64, final: Uint64, bids: seq<Pair>, asks: seq<Pair>)
    : seq<Field>
  {
    [Word("e", "depthUpdate"), Number("E", time), Word("s", symbol), Number("U", first), Number("u", final),
     Book("b", bids), Book("a", asks)]
  }

  /** A diff of the futures stream, which also carries the transaction time and the previous final id. */
  function UsdmDiff(
      time: Uint64, matched: Uint64, symbol: string, first: Uint64, final: Uint64, prev: Uint64,
      bids: seq<Pair>, asks: seq<Pair>)
    : seq<Field>
  {
    [Word("e", "depthUpdate"), Number("E", time), Number("T", matched), Word("s", symbol), Number("U", first),
     Number("u", final), Number("pu", prev), Book("b", bids), Book("a", asks)]
  }

  /** A spot partial-depth message, and the reply to a spot snapshot request. */
  function SpotBook(id: Uint64, bids: seq<Pair>, asks: seq<Pair>): seq<Field> {
    [Number("lastUpdateId", id), Book("bids", bids), Book("asks", asks)]
  }

  /** The reply to a futures snapshot request. */
  function UsdmBook(id: Uint64, time: Uint64, matched: Uint64, bids: seq<Pair>, asks: seq<Pair>): seq<Field> {
    [Number("lastUpdateId", id), Number("E", time), Number("T", matched), Book("bids", bids), Book("asks", asks)]
  }

  lemma HeldLevels(fs: seq<Field>, ev: DepthEvent, xs: seq<Pair>, ys: seq<Pair>, bs: seq<Level>, as': seq<Level>)
    requires Holds(fs, ev) && Denote(xs, bs) && Denote(ys, as')
    requires PairsUnder(fs, "bids", "b") == xs && PairsUnder(fs, "asks", "a") == ys
    ensures ev.bids == bs && ev.asks == as'
  {
    DenotedIsRead(xs, bs);
    DenotedIsRead(xs, ev.bids);
    DenotedIsRead(ys, as');
    DenotedIsRead(ys, ev.asks);
  }

  // ---- Reading the message forms ----

  lemma {:induction false} NumberAt(fs: seq<Field>, key: string, i: nat)
    requires i < |fs| && fs[i].Number? && fs[i].key == key
    requires forall j :: i < j < |fs| ==> fs[j].key != key
    ensures NumberUnder(fs, key) == fs[i].n
  {
    if i < |fs| - 1 {
      NumberAt(fs[..|fs| - 1], key, i);
    }
  }

  lemma {:induction false} NoNumber(fs: seq<Field>, key: string)
    requires forall j :: 0 <= j < |fs| ==> fs[j].key != key
    ensures NumberUnder(fs, key) == 0
  {
    if fs != [] {
      NoNumber(fs[..|fs| - 1], key);
    }
  }

  lemma {:induction false} NoPairs(fs: seq<Field>, long: string, short: string)
    requires forall j :: 0 <= j < |fs| ==> fs[j].key != long && fs[j].key != short
    ensures PairsUnder(fs, long, short) == []
  {
    if fs != [] {
      NoPairs(fs[..|fs| - 1], long, short);
    }
  }

  lemma {:induction false} PairsAt(fs: seq<Field>, long: string, short: string, i: nat)
    requires i < |fs| && fs[i].Book? && (fs[i].key == long || fs[i].key == short)
    requires forall j :: 0 <= j < |fs| && j != i ==> fs[j].key != long && fs[j].key != short
    ensures PairsUnder(fs, long, short) == fs[i].xs
  {
    if i < |fs| - 1 {
      PairsAt(fs[..|fs| - 1], long, short, i);
    } else {
      NoPairs(fs[..i], long, short);
      assert [] + fs[i].xs == fs[i].xs;
    }
  }

  lemma {:induction false} NoTime(fs: seq<Field>)
    requires forall j :: 0 <= j < |fs| ==> fs[j].key != "E" && fs[j].key != "T"
    ensures TimeUnder(fs) == 0
  {
    if fs != [] {
      NoTime(fs[..|fs| - 1]);
    }
  }

  /** E at `i`, and T after it only at `k`. */
  lemma {:induction false} TimeAt(fs: seq<Field>, i: nat, k: nat)
    requires i < k <= |fs| && fs[i].Number? && fs[i].key == "E"
    requires forall j :: i < j < |fs| ==> fs[j].key != "E" && (fs[j].key == "T" ==> j == k && fs[j].Number?)
    ensures TimeUnder(fs) ==
      if k < |fs| && fs[k].key == "T" && Signed(fs[i].n) == 0 then Signed(fs[k].n) else Signed(fs[i].n)
  {
    if i < |fs| - 1 {
      TimeAt(fs[..|fs| - 1], i, if k < |fs| then k else |fs| - 1);
    }
  }

  lemma NumeralHasNoQuote(t: string, v: int)
    requires Denotes(t, 8, v)
    ensures '"' !in t
  {
    var n: Numeral :| n.WellFormed() && n.Text() == t && Equals(n, 8, v);
    assert '"' !in n.whole && '"' !in n.frac;
  }

  lemma DenotedAreQuoteFree(xs: seq<Pair>, ls: seq<Level>)
    requires Denote(xs, ls)
    ensures QuoteFree(xs)
  {
    forall i | 0 <= i < |xs| ensures '"' !in xs[i].price && '"' !in xs[i].qty {
      assert PairDenotes(xs[i], ls[i]);
      NumeralHasNoQuote(xs[i].price, ls[i].price);
      NumeralHasNoQuote(xs[i].qty, ls[i].qty);
    }
  }

  /** The only level arrays are the bids at `b` and the asks at `a`. */
  predicate TwoBooks(fs: seq<Field>, b: nat, a: nat) {
    && b < |fs| && a < |fs| && fs[b].Book? && fs[a].Book?
    && (fs[b].key == "bids" || fs[b].key == "b") && (fs[a].key == "asks" || fs[a].key == "a")
    && forall j :: 0 <= j < |fs| && j != b && j != a ==> !fs[j].Book? && IsMember(fs[j])
  }

  /** A payload with one bid array and one ask array of denoted levels, and a final or snapshot id or some
      level, is accepted as an event that holds it. */
  lemma DenotedMessageReads(
      fs: seq<Field>, b: nat, a: nat, bs: seq<Level>, as': seq<Level>) returns (ev: DepthEvent)
    requires TwoBooks(fs, b, a)
    requires Denote(fs[b].xs, bs) && Denote(fs[a].xs, as')
    requires SaysSomething(fs)
    ensures ParsePayload(PayloadText(fs)) == Some(ev)
    ensures Holds(fs, ev) && ev.bids == bs && ev.asks == as'
  {
    DenotedAreQuoteFree(fs[b].xs, bs);
    DenotedAreQuoteFree(fs[a].xs, as');
    forall f | f in fs ensures IsMember(f) && (f.Book? ==> exists ls :: Denote(f.xs, ls)) {
      var j :| 0 <= j < |fs| && fs[j] == f;
    }
    MessageReads(fs);
    ev := ParsePayload(PayloadText(fs)).value;
    PairsAt(fs, "bids", "b", b);
    PairsAt(fs, "asks", "a", a);
    HeldLevels(fs, ev, fs[b].xs, fs[a].xs, bs, as');
  }

  lemma LevelsSaySomething(fs: seq<Field>, b: nat, a: nat)
    requires TwoBooks(fs, b, a)
    ensures SaysSomething(fs) <==>
      NumberUnder(fs, "u") != 0 || NumberUnder(fs, "lastUpdateId") != 0 || fs[b].xs != [] || fs[a].xs != []
  {
    PairsAt(fs, "bids", "b", b);
    PairsAt(fs, "asks", "a", a);
  }

  /** The numbers and the time a payload says. */
  ghost predicate SaysIds(fs: seq<Field>, first: Uint64, final: Uint64, prev: Uint64, id: Uint64, time: int) {
    && NumberUnder(fs, "U") == first && NumberUnder(fs, "u") == final && NumberUnder(fs, "pu") == prev
    && NumberUnder(fs, "lastUpdateId") == id && TimeUnder(fs) == time
  }

  lemma TwoBooksRead(
      fs: seq<Field>, b: nat, a: nat, bs: seq<Level>, as': seq<Level>,
      first: Uint64, final: Uint64, prev: Uint64, id: Uint64, time: int)
    requires TwoBooks(fs, b, a) && Denote(fs[b].xs, bs) && Denote(fs[a].xs, as')
    requires SaysIds(fs, first, final, prev, id, time)
    requires final != 0 || id != 0 || fs[b].xs != [] || fs[a].xs != []
    ensures ParsePayload(PayloadText(fs)) ==
            Some(DepthEvent(first, final, prev, id, time, Timestamp(0, 0), bs, as'))
  {
    LevelsSaySomething(fs, b, a);
    var ev := DenotedMessageReads(fs, b, a, bs, as');
  }

  lemma SpotDiffShape(
      time: Uint64, symbol: string, first: Uint64, final: Uint64, bids: seq<Pair>, asks: seq<Pair>)
    requires '"' !in symbol
    ensures TwoBooks(SpotDiff(time, symbol, first, final, bids, asks), 5, 6)
  {
  }

  lemma SpotDiffIds(
      time: Uint64, symbol: string, first: Uint64, final: Uint64, bids: seq<Pair>, asks: seq<Pair>)
    ensures SaysIds(SpotDiff(time, symbol, first, final, bids, asks), first, final, 0, 0, Signed(time))
  {
    var fs := SpotDiff(time, symbol, first, final, bids, asks);
    NumberAt(fs, "u", 4);
    NumberAt(fs, "U", 3);
    NoNumber(fs, "pu");
    NoNumber(fs, "lastUpdateId");
    TimeAt(fs, 1, |fs|);
  }

  /** A spot diff: U, u and E in their fields, no previous and no snapshot id, bids from b and asks from a. */
  lemma SpotDiffReads(
      time: Uint64, symbol: string, first: Uint64, final: Uint64,
      bids: seq<Pair>, asks: seq<Pair>, bs: seq<Level>, as': seq<Level>)
    requires '"' !in symbol && Denote(bids, bs) && Denote(asks, as')
    requires final != 0 || bids != [] || asks != []
    ensures ParsePayload(PayloadText(SpotDiff(time, symbol, first, final, bids, asks))) ==
            Some(DepthEvent(first, final, 0, 0, Signed(time), Timestamp(0, 0), bs, as'))
  {
    SpotDiffShape(time, symbol, first, final, bids, asks);
    SpotDiffIds(time, symbol, first, final, bids, asks);
    TwoBooksRead(SpotDiff(time, symbol, first, final, bids, asks), 5, 6, bs, as', first, final, 0, 0, Signed(time));
  }

  lemma UsdmDiffShape(
      time: Uint64, matched: Uint64, symbol: string, first: Uint64, final: Uint64, prev: Uint64,
      bids: seq<Pair>, asks: seq<Pair>)
    requires '"' !in symbol
    ensures TwoBooks(UsdmDiff(time, matched, symbol, first, final, prev, bids, asks), 7, 8)
  {
  }

  lemma UsdmDiffIds(
      time: Uint64, matched: Uint64, symbol: string, first: Uint64, final: Uint64, prev: Uint64,
      bids: seq<Pair>, asks: seq<Pair>)
    ensures SaysIds(UsdmDiff(time, matched, symbol, first, final, prev, bids, asks), first, final, prev, 0,
                    Signed(if time == 0 then matched else time))
  {
    var fs := UsdmDiff(time, matched, symbol, first, final, prev, bids, asks);
    UsdmDiffRange(fs);
    NumberAt(fs, "pu", 6);
    NoNumber(fs, "lastUpdateId");
    TimeAt(fs, 1, 2);
  }

  lemma UsdmDiffRange(fs: seq<Field>)
    requires |fs| == 9 && fs[4].Number? && fs[5].Number? && fs[4].key == "U" && fs[5].key == "u"
    requires fs[6].key == "pu" && fs[7].key == "b" && fs[8].key == "a"
    ensures NumberUnder(fs, "U") == fs[4].n && NumberUnder(fs, "u") == fs[5].n
  {
    NumberAt(fs, "U", 4);
    NumberAt(fs, "u", 5);
  }

  /** A futures diff: pu is the previous id, and T counts only when E is 0. */
  lemma UsdmDiffReads(
      time: Uint64, matched: Uint64, symbol: string, first: Uint64, final: Uint64, prev: Uint64,
      bids: seq<Pair>, asks: seq<Pair>, bs: seq<Level>, as': seq<Level>)
    requires '"' !in symbol && Denote(bids, bs) && Denote(asks, as')
    requires final != 0 || bids != [] || asks != []
    ensures ParsePayload(PayloadText(UsdmDiff(time, matched, symbol, first, final, prev, bids, asks))) ==
            Some(DepthEvent(first, final, prev, 0, Signed(if time == 0 then matched else time),
                            Timestamp(0, 0), bs, as'))
  {
    UsdmDiffShape(time, matched, symbol, first, final, prev, bids, asks);
    UsdmDiffIds(time, matched, symbol, first, final, prev, bids, asks);
    TwoBooksRead(UsdmDiff(time, matched, symbol, first, final, prev, bids, asks), 7, 8, bs, as',
                 first, final, prev, 0, Signed(if time == 0 then matched else time));
  }

  lemma SpotBookIds(id: Uint64, bids: seq<Pair>, asks: seq<Pair>)
    ensures SaysIds(SpotBook(id, bids, asks), 0, 0, 0, id, 0)
  {
    var fs := SpotBook(id, bids, asks);
    NumberAt(fs, "lastUpdateId", 0);
    NoNumber(fs, "U");
    NoNumber(fs, "u");
    NoNumber(fs, "pu");
    NoTime(fs);
  }

  /** A spot partial-depth message or snapshot: its id and levels, no time. */
  lemma SpotBookReads(id: Uint64, bids: seq<Pair>, asks: seq<Pair>, bs: seq<Level>, as': seq<Level>)
    requires Denote(bids, bs) && Denote(asks, as')
    requires id != 0 || bids != [] || asks != []
    ensures ParsePayload(PayloadText(SpotBook(id, bids, asks))) ==
            Some(DepthEvent(0, 0, 0, id, 0, Timestamp(0, 0), bs, as'))
  {
    SpotBookIds(id, bids, asks);
    TwoBooksRead(SpotBook(id, bids, asks), 1, 2, bs, as', 0, 0, 0, id, 0);
  }

  lemma UsdmBookIds(id: Uint64, time: Uint64, matched: Uint64, bids: seq<Pair>, asks: seq<Pair>)
    ensures SaysIds(UsdmBook(id, time, matched, bids, asks), 0, 0, 0, id, Signed(if time == 0 then matched else time))
  {
    var fs := UsdmBook(id, time, matched, bids, asks);
    NumberAt(fs, "lastUpdateId", 0);
    NoNumber(fs, "U");
    NoNumber(fs, "u");
    NoNumber(fs, "pu");
    TimeAt(fs, 1, 2);
  }

  /** A futures snapshot: its id, time and levels. */
  lemma UsdmBookReads(
      id: Uint64, time: Uint64, matched: Uint64, bids: seq<Pair>, asks: seq<Pair>, bs: seq<Level>, as': seq<Level>)
    requires Denote(bids, bs) && Denote(asks, as')
    requires id != 0 || bids != [] || asks != []
    ensures ParsePayload(PayloadText(UsdmBook(id, time, matched, bids, asks))) ==
            Some(DepthEvent(0, 0, 0, id, Signed(if time == 0 then matched else time), Timestamp(0, 0), bs, as'))
  {
    UsdmBookIds(id, time, matched, bids, asks);
    TwoBooksRead(UsdmBook(id, time, matched, bids, asks), 3, 4, bs, as',
                 0, 0, 0, id, Signed(if time == 0 then matched else time));
  }
}
