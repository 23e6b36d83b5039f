/** The built-in scanner for depth payloads: what it reads from any text, and the proof that it
    inverts the wire form of every message made of numbers, strings and level arrays. */
module DepthParser {
  import opened MarketTypes
  import opened Text
  import opened Csv
  import opened Decimal

  const PRICE_SCALE: nat := 8
  const QTY_SCALE: nat := 8

  // ---- Quoted strings ----

  /** The next quoted string and the text after it. */
  function NextQuoted(t: string): (r: Cut)
    ensures r.Cut? ==> |r.after| < |t|
  {
    var a := CutAt(t, '"');
    if a.NotFound? then NotFound else CutAt(a.after, '"')
  }

  // ---- Level arrays ----

  /** What is left to read, the levels read, and whether all were well formed. */
  datatype Scan = Scan(rest: string, levels: seq<Level>, ok: bool)

  function ParseLevel(price: string, qty: string): Option<Level> {
    var p, q := Scaled(Split(price), PRICE_SCALE), Scaled(Split(qty), QTY_SCALE);
    if p.Some? && q.Some? then Some(Level(p.value, q.value)) else None
  }

  /** The next two quoted strings, and the text after the bracket that follows them. */
  datatype Entry = Broken | Entry(price: string, qty: string, rest: string)

  function ReadEntry(t: string): (e: Entry)
    ensures e.Entry? ==> |e.rest| <= |t|
  {
    var price := NextQuoted(t);
    if price.NotFound? then Broken else
    var qty := NextQuoted(price.after);
    if qty.NotFound? then Broken else
    var e := CutAt(qty.after, ']');
    Entry(price.before, qty.before, if e.NotFound? then "" else e.after)
  }

  function Entries(t: string): (r: Scan)
    ensures |r.rest| <= |t|
    decreases |t|
  {
    if t == "" then Scan("", [], true)
    else if t[0] == ']' then Scan(t[1..], [], true)
    else if t[0] != '[' then Entries(t[1..])
    else
      var e := ReadEntry(t[1..]);
      if e.Broken? then Scan("", [], false)
      else
        var l, r := ParseLevel(e.price, e.qty), Entries(e.rest);
        if l.Some? then r.(levels := [l.value] + r.levels) else r.(ok := false)
  }

  function ScanLevels(t: string): (r: Scan)
    ensures |r.rest| <= |t|
  {
    if t == "" || t[0] != '[' then Scan(t, [], true) else Entries(t[1..])
  }

  /** The wire form of a level array. */
  datatype Pair = Pair(price: string, qty: string)

  function PairText(x: Pair): string {
    "[\"" + x.price + "\",\"" + x.qty + "\"]"
  }

  function PairsText(xs: seq<Pair>): string {
    if xs == [] then ""
    else if |xs| == 1 then PairText(xs[0])
    else PairText(xs[0]) + "," + PairsText(xs[1..])
  }

  function LevelsText(xs: seq<Pair>): string {
    "[" + PairsText(xs) + "]"
  }

  predicate QuoteFree(xs: seq<Pair>) {
    forall i :: 0 <= i < |xs| ==> '"' !in xs[i].price && '"' !in xs[i].qty
  }

  /** Both texts of every pair are numerals that fit. */
  predicate Readable(xs: seq<Pair>) {
    xs == [] || (ParseLevel(xs[0].price, xs[0].qty).Some? && Readable(xs[1..]))
  }

  /** The levels of the readable pairs, in order. */
  function LevelsOf(xs: seq<Pair>): seq<Level> {
    if xs == [] then [] else LevelOf(xs[0]) + LevelsOf(xs[1..])
  }

  function LevelOf(x: Pair): seq<Level> {
    var l := ParseLevel(x.price, x.qty);
    if l.Some? then [l.value] else []
  }

  /** `a`, a quote, `b`. */
  function Quoted(a: string, b: string): string {
    a + "\"" + b
  }

  function EntryText(x: Pair, rest: string): string {
    Quoted("", Quoted(x.price, Quoted(",", Quoted(x.qty, "]" + rest))))
  }

  lemma EntryReads(x: Pair, rest: string)
    requires '"' !in x.price && '"' !in x.qty
    ensures ReadEntry(EntryText(x, rest)) == Entry(x.price, x.qty, rest)
  {
    var t4 := "]" + rest;
    var t3 := Quoted(x.qty, t4);
    var t2 := Quoted(",", t3);
    var t1 := Quoted(x.price, t2);
    CutText("", '"', t1);
    CutText(x.price, '"', t2);
    CutText(",", '"', t3);
    CutText(x.qty, '"', t4);
    BracketFirst(rest);
  }

  lemma BracketFirst(rest: string)
    ensures CutAt("]" + rest, ']') == Cut("", rest)
  {
    assert "" + "]" + rest == "]" + rest;
    CutText("", ']', rest);
  }

  lemma PairTextShape(x: Pair, rest: string)
    ensures PairText(x) + rest == "[" + EntryText(x, rest)
  {
    var t4 := "]" + rest;
    var t3 := Quoted(x.qty, t4);
    assert "\",\"" + t3 == "\"" + Quoted(",", t3);
    assert x.qty + "\"]" + rest == t3;
    assert "[\"" + x.price + "\",\"" + x.qty + "\"]" + rest == "[\"" + x.price + ("\",\"" + (x.qty + "\"]" + rest));
  }

  /** The scan of what follows a pair, with the pair in front. */
  function Prepended(x: Pair, r: Scan): Scan {
    Scan(r.rest, LevelOf(x) + r.levels, ParseLevel(x.price, x.qty).Some? && r.ok)
  }

  lemma PairReads(x: Pair, rest: string)
    requires '"' !in x.price && '"' !in x.qty
    ensures Entries(PairText(x) + rest) == Prepended(x, Entries(rest))
  {
    assert [] + Entries(rest).levels == Entries(rest).levels;
    PairTextShape(x, rest);
    var t := "[" + EntryText(x, rest);
    assert t[1..] == EntryText(x, rest);
    EntryReads(x, rest);
  }

  /** The pairs, their closing bracket and what follows it. */
  function PairsThen(xs: seq<Pair>, rest: string): string {
    if xs == [] then "]" + rest
    else PairText(xs[0]) + if |xs| == 1 then "]" + rest else "," + PairsThen(xs[1..], rest)
  }

  lemma Regroup(a: string, b: string, c: string, d: string)
    ensures a + ("," + (b + c + d)) == (a + "," + b) + c + d
  {
  }

  lemma {:induction false} PairsThenIs(xs: seq<Pair>, rest: string)
    ensures PairsThen(xs, rest) == PairsText(xs) + "]" + rest
    decreases |xs|
  {
    if |xs| == 0 {
      assert "" + "]" + rest == "]" + rest;
    } else if |xs| == 1 {
      Assoc(PairText(xs[0]), "]", rest);
    } else {
      PairsThenIs(xs[1..], rest);
      Regroup(PairText(xs[0]), PairsText(xs[1..]), "]", rest);
    }
  }

  lemma EndReads(rest: string)
    ensures Entries("]" + rest) == Scan(rest, [], true)
  {
    assert ("]" + rest)[1..] == rest;
  }

  lemma CommaSkips(t: string)
    ensures Entries("," + t) == Entries(t)
  {
    assert ("," + t)[1..] == t;
  }

  lemma {:induction false} PairsReadBack(xs: seq<Pair>, rest: string)
    requires QuoteFree(xs)
    ensures Entries(PairsThen(xs, rest)) == Scan(rest, LevelsOf(xs), Readable(xs))
    decreases |xs|
  {
    EndReads(rest);
    if xs != [] {
      if |xs| == 1 {
        PairReads(xs[0], "]" + rest);
      } else {
        var tail := PairsThen(xs[1..], rest);
        PairReads(xs[0], "," + tail);
        CommaSkips(tail);
        PairsReadBack(xs[1..], rest);
      }
    }
  }

  lemma OpenBracket(a: string, rest: string)
    ensures ScanLevels("[" + a + "]" + rest) == Entries(a + "]" + rest)
  {
    var t := "[" + a + "]" + rest;
    assert t[1..] == a + "]" + rest;
  }

  /** Every level array is read up to just past its closing bracket: all readable pairs in order, and
      reported good exactly when all are readable. */
  lemma LevelsReadBack(xs: seq<Pair>, rest: string)
    requires QuoteFree(xs)
    ensures ScanLevels(LevelsText(xs) + rest) == Scan(rest, LevelsOf(xs), Readable(xs))
  {
    PairsReadBack(xs, rest);
    PairsThenIs(xs, rest);
    OpenBracket(PairsText(xs), rest);
  }

  // ---- Whole payloads ----

  function SkipSpaces(t: string): (r: string)
    ensures |r| <= |t|
  {
    if t != "" && t[0] == ' ' then SkipSpaces(t[1..]) else t
  }

  /** Leading digits as a 64-bit number, with its wrap-around. */
  function ReadU64(t: string, v: Uint64): Uint64 {
    if t == "" || !IsDigit(t[0]) then v else ReadU64(t[1..], (v * 10 + DigitOf(t[0])) % UINT64_BOUND)
  }

  /** The two's-complement reading of a 64-bit number. */
  function ToInt64(v: Uint64): int {
    if v <= INT64_MAX then v else v - UINT64_BOUND
  }

  function EmptyEvent(): DepthEvent {
    DepthEvent(0, 0, 0, 0, 0, Timestamp(0, 0), [], [])
  }

  function SetNumber(ev: DepthEvent, key: string, n: Uint64): DepthEvent {
    if key == "E" then ev.(eventTimeMs := ToInt64(n))
    else if key == "T" then (if ev.eventTimeMs == 0 then ev.(eventTimeMs := ToInt64(n)) else ev)
    else if key == "U" then ev.(firstId := n)
    else if key == "u" then ev.(finalId := n)
    else if key == "pu" then ev.(prevId := n)
    else if key == "lastUpdateId" then ev.(lastUpdateId := n)
    else ev
  }

  function AddLevels(ev: DepthEvent, side: Side, ls: seq<Level>): DepthEvent {
    if side.Bid? then ev.(bids := ev.bids + ls) else ev.(asks := ev.asks + ls)
  }

  /** The side whose levels a key holds. */
  function BookKey(key: string): Option<Side> {
    if key == "bids" || key == "b" then Some(Bid)
    else if key == "asks" || key == "a" then Some(Ask)
    else None
  }

  datatype Parsed = Parsed(ev: DepthEvent, ok: bool)

  /** A quoted string followed by a colon is a key; any other quoted string is skipped. */
  function ScanKeys(t: string, ev: DepthEvent, ok: bool): Parsed
    decreases |t|
  {
    var token := NextQuoted(t);
    if token.NotFound? then Parsed(ev, ok) else
    var key, c := token.before, SkipSpaces(token.after);
    if c == "" || c[0] != ':' then ScanKeys(token.after, ev, ok)
    else
      var v := SkipSpaces(c[1..]);
      if BookKey(key).Some? then
        var r := ScanLevels(v);
        ScanKeys(r.rest, AddLevels(ev, BookKey(key).value, r.levels), ok && r.ok)
      else
        ScanKeys(v, SetNumber(ev, key, ReadU64(v, 0)), ok)
  }

  predicate Meaningful(ev: DepthEvent) {
    ev.finalId != 0 || ev.lastUpdateId != 0 || ev.bids != [] || ev.asks != []
  }

  function ParsePayload(t: string): Option<DepthEvent> {
    var r := ScanKeys(t, EmptyEvent(), true);
    if r.ok && Meaningful(r.ev) then Some(r.ev) else None
  }

  /** A text without quotes has no keys, so it says nothing and is refused. */
  lemma QuoteFreeIsRefused(t: string)
    requires '"' !in t
    ensures ParsePayload(t).None?
  {
    NoCut(t, '"');
  }

  // ---- The wire form of a payload ----

  /** A member of the payload object: a number, a string, or a level array under its long or short
      key. */
  datatype Field = Number(key: string, n: Uint64) | Word(key: string, text: string) | Book(key: string, xs: seq<Pair>)

  predicate Writable(f: Field) {
    && '"' !in f.key
    && match f
       case Number(key, n) => BookKey(key).None?
       case Word(key, text) => BookKey(key).None? && '"' !in text
       case Book(key, xs) => BookKey(key).Some? && QuoteFree(xs)
  }

  /** No member is a level array with a pair that cannot be read. */
  predicate AllReadable(fs: seq<Field>) {
    fs == [] || ((fs[0].Book? ==> Readable(fs[0].xs)) && AllReadable(fs[1..]))
  }

  function ValueText(f: Field): string {
    match f
    case Number(_, n) => FormatNat(n)
    case Word(_, text) => "\"" + text + "\""
    case Book(_, xs) => LevelsText(xs)
  }

  function FieldText(f: Field): string {
    "\"" + f.key + "\":" + ValueText(f)
  }

  function FieldsThen(fs: seq<Field>): string {
    if fs == [] then "}"
    else FieldText(fs[0]) + if |fs| == 1 then "}" else "," + FieldsThen(fs[1..])
  }

  function PayloadText(fs: seq<Field>): string {
    "{" + FieldsThen(fs)
  }

  /** What a member means for the event. */
  function Effect(ev: DepthEvent, f: Field): DepthEvent
    requires Writable(f)
  {
    match f
    case Number(key, n) => SetNumber(ev, key, n)
    case Word(key, _) => SetNumber(ev, key, 0)
    case Book(key, xs) => AddLevels(ev, BookKey(key).value, LevelsOf(xs))
  }

  function Meaning(ev: DepthEvent, fs: seq<Field>): DepthEvent
    requires forall f :: f in fs ==> Writable(f)
    decreases |fs|
  {
    if fs == [] then ev else Meaning(Effect(ev, fs[0]), fs[1..])
  }

  /** What separates values: text that starts with a comma or closes the object. */
  predicate Separator(t: string) {
    t != "" && (t[0] == ',' || t[0] == '}')
  }

  lemma PlainSkips(a: string, rest: string, ev: DepthEvent, ok: bool)
    requires '"' !in a
    ensures ScanKeys(a + rest, ev, ok) == ScanKeys(rest, ev, ok)
  {
    CutSkips(a, rest);
  }

  lemma CutSkips(a: string, rest: string)
    requires '"' !in a
    ensures NextQuoted(a + rest) == NextQuoted(rest)
  {
    var c := CutAt(rest, '"');
    CutParts(rest, '"');
    if c.NotFound? {
      NoCut(a + rest, '"');
    } else {
      assert a + rest == (a + c.before) + ['"'] + c.after;
      CutText(a + c.before, '"', c.after);
    }
  }

  lemma {:induction false} DigitsRead(s: string, rest: string, v: Uint64)
    requires Digits(s) && (rest == "" || !IsDigit(rest[0]))
    requires ReadDigits(s, v) < UINT64_BOUND
    ensures ReadU64(s + rest, v) == ReadDigits(s, v)
    decreases |s|
  {
    if s == "" {
      assert s + rest == rest;
    } else {
      var w := v * 10 + DigitOf(s[0]);
      AtLeast(s[1..], w);
      assert (s + rest)[0] == s[0] && (s + rest)[1..] == s[1..] + rest;
      DivModOf(w, 0, UINT64_BOUND, w);
      DigitsRead(s[1..], rest, w);
    }
  }

  lemma {:induction false} AtLeast(s: string, v: nat)
    ensures ReadDigits(s, v) >= v
  {
    if s != "" && IsDigit(s[0]) {
      AtLeast(s[1..], 10 * v + DigitOf(s[0]));
    }
  }

  /** A key with its colon is taken as a key, and scanning goes on at the value. */
  lemma KeyReads(key: string, v: string, ev: DepthEvent, ok: bool)
    requires '"' !in key && v != "" && v[0] != ' '
    ensures ScanKeys("\"" + key + "\":" + v, ev, ok) ==
      if BookKey(key).Some? then
        var r := ScanLevels(v); ScanKeys(r.rest, AddLevels(ev, BookKey(key).value, r.levels), ok && r.ok)
      else ScanKeys(v, SetNumber(ev, key, ReadU64(v, 0)), ok)
  {
    KeyFirst(key, v);
    ColonFirst(v);
  }

  lemma KeyFirst(key: string, v: string)
    requires '"' !in key
    ensures NextQuoted("\"" + key + "\":" + v) == Cut(key, ":" + v)
  {
    KeyGlue("\"" + key, v);
    QuoteFirst(key, ":" + v);
  }

  lemma KeyGlue(a: string, v: string)
    ensures a + "\":" + v == a + "\"" + (":" + v)
  {
    assert "\":" == "\"" + ":";
    Assoc(a, "\"", ":");
    Assoc(a + "\"", ":", v);
  }

  lemma ColonFirst(v: string)
    requires v != "" && v[0] != ' '
    ensures var c := ":" + v; SkipSpaces(c) == c && c[0] == ':' && c[1..] == v && SkipSpaces(v) == v
  {
  }

  lemma QuoteFirst(a: string, rest: string)
    requires '"' !in a
    ensures NextQuoted("\"" + a + "\"" + rest) == Cut(a, rest)
  {
    assert "\"" + a + "\"" + rest == "" + ['"'] + (a + ['"'] + rest);
    CutText("", '"', a + ['"'] + rest);
    CutText(a, '"', rest);
  }

  /** A string value is not taken for a key. */
  lemma WordSkips(text: string, rest: string, ev: DepthEvent, ok: bool)
    requires '"' !in text && Separator(rest)
    ensures ScanKeys("\"" + text + "\"" + rest, ev, ok) == ScanKeys(rest, ev, ok)
  {
    QuoteFirst(text, rest);
  }

  lemma FieldReads(f: Field, rest: string, ev: DepthEvent, ok: bool)
    requires Writable(f) && Separator(rest)
    ensures ScanKeys(FieldText(f) + rest, ev, ok) == ScanKeys(rest, Effect(ev, f), ok && (f.Book? ==> Readable(f.xs)))
  {
    var v := ValueText(f) + rest;
    assert FieldText(f) + rest == "\"" + f.key + "\":" + v;
    match f {
      case Number(key, n) => NumberReads(key, n, rest, ev, ok);
      case Word(key, text) => WordReads(key, text, rest, ev, ok);
      case Book(key, xs) =>
        KeyReads(key, v, ev, ok);
        LevelsReadBack(xs, rest);
    }
  }

  lemma NumberReads(key: string, n: Uint64, rest: string, ev: DepthEvent, ok: bool)
    requires '"' !in key && BookKey(key).None? && Separator(rest)
    ensures ScanKeys("\"" + key + "\":" + (FormatNat(n) + rest), ev, ok) == ScanKeys(rest, SetNumber(ev, key, n), ok)
  {
    KeyReads(key, FormatNat(n) + rest, ev, ok);
    NatReadsBack(n);
    DigitsRead(FormatNat(n), rest, 0);
    PlainSkips(FormatNat(n), rest, SetNumber(ev, key, n), ok);
  }

  lemma WordReads(key: string, text: string, rest: string, ev: DepthEvent, ok: bool)
    requires '"' !in key && BookKey(key).None? && '"' !in text && Separator(rest)
    ensures ScanKeys("\"" + key + "\":" + ("\"" + text + "\"" + rest), ev, ok) ==
            ScanKeys(rest, SetNumber(ev, key, 0), ok)
  {
    KeyReads(key, "\"" + text + "\"" + rest, ev, ok);
    WordSkips(text, rest, SetNumber(ev, key, 0), ok);
  }

  lemma {:induction false} FieldsReadBack(fs: seq<Field>, ev: DepthEvent, ok: bool)
    requires forall f :: f in fs ==> Writable(f)
    ensures ScanKeys(FieldsThen(fs), ev, ok) == Parsed(Meaning(ev, fs), ok && AllReadable(fs))
    decreases |fs|
  {
    if fs != [] {
      var rest := if |fs| == 1 then "}" else "," + FieldsThen(fs[1..]);
      var ok' := ok && (fs[0].Book? ==> Readable(fs[0].xs));
      FieldReads(fs[0], rest, ev, ok);
      if |fs| > 1 {
        PlainSkips(",", FieldsThen(fs[1..]), Effect(ev, fs[0]), ok');
        FieldsReadBack(fs[1..], Effect(ev, fs[0]), ok');
      }
    }
  }

  /** The scanner inverts the wire form: whatever members a payload has, in whatever order, parsing
      its text gives what they mean; it is accepted exactly when every level can be read and the whole
      says something. */
  lemma PayloadReadsBack(fs: seq<Field>)
    requires forall f :: f in fs ==> Writable(f)
    ensures var ev := Meaning(EmptyEvent(), fs);
      ParsePayload(PayloadText(fs)) == if AllReadable(fs) && Meaningful(ev) then Some(ev) else None
  {
    PlainSkips("{", FieldsThen(fs), EmptyEvent(), true);
    FieldsReadBack(fs, EmptyEvent(), true);
  }

  // ---- Blanks around the colon ----

  function Blanks(n: nat): string {
    if n == 0 then "" else " " + Blanks(n - 1)
  }

  lemma {:induction false} BlanksAreSkipped(n: nat, v: string)
    ensures SkipSpaces(Blanks(n) + v) == SkipSpaces(v)
  {
    if n == 0 {
      assert Blanks(0) + v == v;
    } else {
      assert (Blanks(n) + v)[1..] == Blanks(n - 1) + v;
      BlanksAreSkipped(n - 1, v);
    }
  }

  /** Any number of blanks on either side of the colon change nothing. */
  lemma BlanksDoNotMatter(key: string, before: nat, after: nat, v: string, ev: DepthEvent, ok: bool)
    requires '"' !in key
    ensures ScanKeys("\"" + key + "\"" + (Blanks(before) + (":" + (Blanks(after) + v))), ev, ok) ==
            ScanKeys("\"" + key + "\"" + (":" + v), ev, ok)
  {
    var spaced, plain := Blanks(before) + (":" + (Blanks(after) + v)), ":" + v;
    QuoteFirst(key, spaced);
    QuoteFirst(key, plain);
    BlanksAreSkipped(before, ":" + (Blanks(after) + v));
    BlanksAreSkipped(after, v);
    ColonThen(Blanks(after) + v);
    ColonThen(v);
    AKey("\"" + key + "\"" + spaced, ev, ok, key, SkipSpaces(spaced), SkipSpaces(v));
    AKey("\"" + key + "\"" + plain, ev, ok, key, plain, SkipSpaces(v));
  }

  lemma ColonThen(v: string)
    ensures SkipSpaces(":" + v) == ":" + v && (":" + v)[0] == ':' && (":" + v)[1..] == v
  {
  }

  // ---- Numbers wrap around at 64 bits ----

  lemma {:induction false} SameResidue(t: string, a: nat, v: Uint64)
    requires v == a % 0x1_0000_0000_0000_0000
    ensures ReadU64(t, v) == ReadDigits(t, a) % 0x1_0000_0000_0000_0000
    decreases |t|
  {
    if t != "" && IsDigit(t[0]) {
      Residue(a, DigitOf(t[0]));
      SameResidue(t[1..], 10 * a + DigitOf(t[0]), (v * 10 + DigitOf(t[0])) % UINT64_BOUND);
    }
  }

  lemma Residue(a: nat, d: nat)
    ensures (10 * a + d) % UINT64_BOUND == ((a % UINT64_BOUND) * 10 + d) % UINT64_BOUND
  {
    var q, x := a / UINT64_BOUND, (a % UINT64_BOUND) * 10 + d;
    var p, r := x / UINT64_BOUND, x % UINT64_BOUND;
    assert a == q * UINT64_BOUND + a % UINT64_BOUND;
    DivModOf(10 * a + d, 10 * q + p, UINT64_BOUND, r);
  }

  /** Leading digits are read modulo 2^64. */
  lemma DigitsReadModulo(t: string)
    ensures ReadU64(t, 0) == ReadDigits(t, 0) % 0x1_0000_0000_0000_0000
  {
    SameResidue(t, 0, 0);
  }

  // ---- The scanners as they run, on indices into the payload ----

  lemma CutOfSuffix(s: string, p: nat, c: char)
    requires p <= |s|
    ensures var k := FindFrom(s, p, c);
      CutAt(s[p..], c) == if k == |s| then NotFound else Cut(s[p..k], s[k + 1..])
  {
    var k := FindFrom(s, p, c);
    if k == |s| {
      NoCut(s[p..], c);
    } else {
      assert s[p..] == s[p..k] + [c] + s[k + 1..];
      CutText(s[p..k], c, s[k + 1..]);
    }
  }

  method FindChar(s: string, p: nat, c: char) returns (k: nat)
    requires p <= |s|
    ensures p <= k <= |s| && (k < |s| ==> s[k] == c)
    ensures CutAt(s[p..], c) == if k == |s| then NotFound else Cut(s[p..k], s[k + 1..])
  {
    k := p;
    while k < |s| && s[k] != c
      invariant p <= k <= |s|
      invariant FindFrom(s, p, c) == FindFrom(s, k, c)
    {
      k := k + 1;
    }
    CutOfSuffix(s, p, c);
  }

  /** The next quoted string is `s[from..to]`, or there is none and `to` is the end. */
  method FindQuoted(s: string, p: nat) returns (from: nat, to: nat)
    requires p <= |s|
    ensures p <= from <= to <= |s| && (to < |s| ==> p < from)
    ensures NextQuoted(s[p..]) == if to == |s| then NotFound else Cut(s[from..to], s[to + 1..])
  {
    var a := FindChar(s, p, '"');
    if a == |s| {
      return |s|, |s|;
    }
    from := a + 1;
    assert CutAt(s[p..], '"').after == s[from..];
    to := FindChar(s, from, '"');
  }

  /** Reads the two quoted strings of an entry and moves past its closing bracket. */
  method ReadEntryAt(s: string, p: nat) returns (good: bool, price: string, qty: string, next: nat)
    requires p <= |s|
    ensures p <= next <= |s|
    ensures good ==> ReadEntry(s[p..]) == Entry(price, qty, s[next..])
    ensures !good ==> ReadEntry(s[p..]).Broken? && next == |s|
  {
    var a, b := FindQuoted(s, p);
    if b == |s| {
      return false, "", "", |s|;
    }
    price := s[a..b];
    good, qty, next := ReadRestOfEntry(s, b + 1, s[p..], price);
  }

  /** The quantity and the bracket of the entry at the start of `t`, whose price has been read. */
  method ReadRestOfEntry(s: string, p: nat, ghost t: string, price: string) returns (good: bool, qty: string, next: nat)
    requires p <= |s| && NextQuoted(t) == Cut(price, s[p..])
    ensures p <= next <= |s|
    ensures good ==> ReadEntry(t) == Entry(price, qty, s[next..])
    ensures !good ==> ReadEntry(t).Broken? && next == |s|
  {
    var c, d := FindQuoted(s, p);
    if d == |s| {
      return false, "", |s|;
    }
    good, qty := true, s[c..d];
    next := EndOfEntry(s, d + 1, t, price, s[p..], qty);
  }

  method EndOfEntry(s: string, p: nat, ghost t: string, ghost price: string, ghost rest: string, ghost qty: string)
    returns (next: nat)
    requires p <= |s| && NextQuoted(t) == Cut(price, rest) && NextQuoted(rest) == Cut(qty, s[p..])
    ensures p <= next <= |s|
    ensures ReadEntry(t) == Entry(price, qty, s[next..])
  {
    next := PastBracket(s, p);
  }

  method PastBracket(s: string, p: nat) returns (next: nat)
    requires p <= |s|
    ensures p <= next <= |s|
    ensures var e := CutAt(s[p..], ']'); s[next..] == if e.NotFound? then "" else e.after
  {
    var e := FindChar(s, p, ']');
    if e == |s| {
      return |s|;
    }
    return e + 1;
  }

  /** Reading on from `p` with `out` and `ok` ends like `all` after `before` and `ok0`. */
  ghost predicate SameEnd(all: Scan, before: seq<Level>, ok0: bool, r: Scan, out: seq<Level>, ok: bool) {
    all.rest == r.rest && before + all.levels == out + r.levels && (ok0 && all.ok) == (ok && r.ok)
  }

  /** One entry of a level array, at its opening bracket. */
  method ReadOne(s: string, p: nat, out: seq<Level>, ok: bool)
    returns (good: bool, next: nat, out': seq<Level>, ok': bool)
    requires p < |s| && s[p] == '['
    ensures p < next <= |s|
    ensures good ==> SameEnd(Entries(s[p..]), out, ok, Entries(s[next..]), out', ok')
    ensures !good ==> Entries(s[p..]) == Scan("", [], false) && next == |s| && out' == out && !ok'
  {
    assert s[p..][0] == '[' && s[p..][1..] == s[p + 1..];
    var price, qty;
    good, price, qty, next := ReadEntryAt(s, p + 1);
    if !good {
      return false, next, out, false;
    }
    out', ok' := PushLevel(price, qty, out, ok, Entries(s[next..]));
  }

  lemma SkipsOther(s: string, p: nat)
    requires p < |s| && s[p] != '[' && s[p] != ']'
    ensures Entries(s[p..]) == Entries(s[p + 1..])
  {
    assert s[p..][0] == s[p] && s[p..][1..] == s[p + 1..];
  }

  lemma NothingLeft(all: Scan, before: seq<Level>, ok0: bool, r: Scan, out: seq<Level>, ok: bool)
    requires SameEnd(all, before, ok0, r, out, ok) && r.levels == []
    ensures all.rest == r.rest && out == before + all.levels && (ok && r.ok) == (ok0 && all.ok)
  {
    assert out + [] == out;
  }

  /** One turn of the entry loop: an entry, or a character between entries. */
  method EntriesTurn(s: string, p: nat, out: seq<Level>, ok: bool)
    returns (good: bool, next: nat, out': seq<Level>, ok': bool)
    requires p < |s| && s[p] != ']'
    ensures p < next <= |s|
    ensures good ==> SameEnd(Entries(s[p..]), out, ok, Entries(s[next..]), out', ok')
    ensures !good ==> Entries(s[p..]) == Scan("", [], false) && next == |s| && out' == out && !ok'
  {
    if s[p] != '[' {
      SkipsOther(s, p);
      return true, p + 1, out, ok;
    }
    good, next, out', ok' := ReadOne(s, p, out, ok);
  }

  method EntriesLoop(s: string, start: nat, before: seq<Level>, ok0: bool) returns (p: nat, out: seq<Level>, ok: bool)
    requires start <= |s|
    ensures start <= p <= |s| && (p < |s| ==> s[p] == ']')
    ensures SameEnd(Entries(s[start..]), before, ok0, Entries(s[p..]), out, ok)
  {
    p, out, ok := start, before, ok0;
    ghost var all := Entries(s[start..]);
    while p < |s| && s[p] != ']'
      invariant start <= p <= |s|
      invariant SameEnd(all, before, ok0, Entries(s[p..]), out, ok)
      decreases |s| - p
    {
      var good;
      good, p, out, ok := EntriesTurn(s, p, out, ok);
      if !good {
        StopsHere(s, p);
        return;
      }
    }
  }

  method ReadEntries(s: string, start: nat, before: seq<Level>, ok0: bool) returns (p: nat, out: seq<Level>, ok: bool)
    requires start <= |s|
    ensures start <= p <= |s|
    ensures var r := Entries(s[start..]); s[p..] == r.rest && out == before + r.levels && ok == (ok0 && r.ok)
  {
    p, out, ok := EntriesLoop(s, start, before, ok0);
    StopsHere(s, p);
    NothingLeft(Entries(s[start..]), before, ok0, Entries(s[p..]), out, ok);
    if p < |s| {
      p := p + 1;
    }
  }

  lemma StopsHere(s: string, p: nat)
    requires p <= |s| && (p < |s| ==> s[p] == ']')
    ensures Entries(s[p..]) == Scan(if p < |s| then s[p + 1..] else "", [], true)
  {
    if p < |s| {
      HeadOfSuffix(s, p);
    }
  }

  method ReadLevels(s: string, start: nat, before: seq<Level>, ok0: bool) returns (p: nat, out: seq<Level>, ok: bool)
    requires start <= |s|
    ensures start <= p <= |s|
    ensures var r := ScanLevels(s[start..]); s[p..] == r.rest && out == before + r.levels && ok == (ok0 && r.ok)
  {
    if start >= |s| || s[start] != '[' {
      return start, before, ok0;
    }
    assert s[start..][0] == '[' && s[start..][1..] == s[start + 1..];
    p, out, ok := ReadEntries(s, start + 1, before, ok0);
  }

  method PushLevel(price: string, qty: string, out: seq<Level>, ok: bool, ghost r: Scan)
    returns (out': seq<Level>, ok': bool)
    ensures var l := ParseLevel(price, qty);
            var whole := if l.Some? then r.(levels := [l.value] + r.levels) else r.(ok := false);
      out' + r.levels == out + whole.levels && (ok' && r.ok) == (ok && whole.ok)
  {
    var p := ParseScaled(price, PRICE_SCALE);
    var q := ParseScaled(qty, QTY_SCALE);
    if p.Some? && q.Some? {
      out', ok' := out + [Level(p.value, q.value)], ok;
      Assoc(out, [Level(p.value, q.value)], r.levels);
    } else {
      out', ok' := out, false;
    }
  }

  method SkipBlanks(s: string, p: nat) returns (k: nat)
    requires p <= |s|
    ensures p <= k <= |s| && s[k..] == SkipSpaces(s[p..])
  {
    k := p;
    while k < |s| && s[k] == ' '
      invariant p <= k <= |s|
      invariant SkipSpaces(s[p..]) == SkipSpaces(s[k..])
    {
      assert s[k..][1..] == s[k + 1..];
      k := k + 1;
    }
  }

  method ReadNumber(s: string, p: nat) returns (v: Uint64)
    requires p <= |s|
    ensures v == ReadU64(s[p..], 0)
  {
    v := 0;
    var k := p;
    while k < |s| && '0' <= s[k] <= '9'
      invariant p <= k <= |s|
      invariant ReadU64(s[p..], 0) == ReadU64(s[k..], v)
    {
      assert s[k..][1..] == s[k + 1..];
      v := (v * 10 + DigitOf(s[k])) % UINT64_BOUND;
      k := k + 1;
    }
  }

  /** One key and its value: where scanning goes on, and the event and flag so far. */
  method ReadKey(s: string, key: string, p: nat, ev: DepthEvent, ok: bool)
    returns (next: nat, ev': DepthEvent, ok': bool)
    requires p <= |s|
    ensures p <= next <= |s|
    ensures BookKey(key).Some? ==> var r := ScanLevels(s[p..]);
      s[next..] == r.rest && ev' == AddLevels(ev, BookKey(key).value, r.levels) && ok' == (ok && r.ok)
    ensures BookKey(key).None? ==> next == p && ev' == SetNumber(ev, key, ReadU64(s[p..], 0)) && ok' == ok
  {
    if key == "bids" || key == "b" {
      var out;
      next, out, ok' := ReadLevels(s, p, ev.bids, ok);
      ev' := ev.(bids := out);
    } else if key == "asks" || key == "a" {
      var out;
      next, out, ok' := ReadLevels(s, p, ev.asks, ok);
      ev' := ev.(asks := out);
    } else {
      var n := ReadNumber(s, p);
      next, ev', ok' := p, SetNumber(ev, key, n), ok;
    }
  }

  lemma NotAKey(t: string, ev: DepthEvent, ok: bool)
    requires NextQuoted(t).Cut?
    requires var c := SkipSpaces(NextQuoted(t).after); c == "" || c[0] != ':'
    ensures ScanKeys(t, ev, ok) == ScanKeys(NextQuoted(t).after, ev, ok)
  {
  }

  lemma AKey(t: string, ev: DepthEvent, ok: bool, key: string, c: string, v: string)
    requires NextQuoted(t).Cut? && NextQuoted(t).before == key && c == SkipSpaces(NextQuoted(t).after)
    requires c != "" && c[0] == ':' && v == SkipSpaces(c[1..])
    ensures ScanKeys(t, ev, ok) ==
      if BookKey(key).Some? then
        var r := ScanLevels(v); ScanKeys(r.rest, AddLevels(ev, BookKey(key).value, r.levels), ok && r.ok)
      else ScanKeys(v, SetNumber(ev, key, ReadU64(v, 0)), ok)
  {
  }

  /** One turn of the key loop; there is no more when no quoted string is left. */
  method ParseStep(data: string, i: nat, ev: DepthEvent, ok: bool)
    returns (more: bool, next: nat, ev': DepthEvent, ok': bool)
    requires i <= |data|
    ensures !more ==> ScanKeys(data[i..], ev, ok) == Parsed(ev, ok)
    ensures more ==> i < next <= |data| && ScanKeys(data[i..], ev, ok) == ScanKeys(data[next..], ev', ok')
  {
    var start, end := FindQuoted(data, i);
    if end == |data| {
      return false, i, ev, ok;
    }
    more := true;
    next, ev', ok' := AfterQuoted(data, end + 1, data[i..], data[start..end], ev, ok);
  }

  /** `key` is the first quoted string of `t` and `data[p..]` is what follows it. */
  method AfterQuoted(data: string, p: nat, ghost t: string, key: string, ev: DepthEvent, ok: bool)
    returns (next: nat, ev': DepthEvent, ok': bool)
    requires p <= |data| && NextQuoted(t) == Cut(key, data[p..])
    ensures p <= next <= |data|
    ensures ScanKeys(t, ev, ok) == ScanKeys(data[next..], ev', ok')
  {
    var colon := SkipBlanks(data, p);
    if colon >= |data| || data[colon] != ':' {
      NotAKey(t, ev, ok);
      return p, ev, ok;
    }
    assert data[colon..][0] == ':' && data[colon..][1..] == data[colon + 1..];
    var v := SkipBlanks(data, colon + 1);
    AKey(t, ev, ok, key, data[colon..], data[v..]);
    next, ev', ok' := ReadKey(data, key, v, ev, ok);
  }

  method ParseDepth(data: string) returns (r: Option<DepthEvent>)
    ensures r == ParsePayload(data)
  {
    var i, ev, ok := 0, EmptyEvent(), true;
    assert data[0..] == data;
    while i < |data|
      invariant 0 <= i <= |data|
      invariant ScanKeys(data[i..], ev, ok) == ScanKeys(data, EmptyEvent(), true)
      decreases |data| - i
    {
      var more, next, ev', ok' := ParseStep(data, i, ev, ok);
      if !more {
        break;
      }
      i, ev, ok := next, ev', ok';
    }
    if ok && Meaningful(ev) {
      r := Some(ev);
    } else {
      r := None;
    }
  }
}
