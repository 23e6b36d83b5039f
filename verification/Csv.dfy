/** CSV fields, decimal columns and lines: what the writers produce and what replay reads back
    (section 2 of RFC 4180). */
module Csv {
  import opened MarketTypes

  // ---- Escaping ----

  predicate Special(c: char) {
    c == ',' || c == '"' || c == '\n' || c == '\r'
  }

  predicate NeedsQuote(field: string) {
    exists i :: 0 <= i < |field| && Special(field[i])
  }

  /** Every quote doubled. */
  function Doubled(s: string): string {
    if s == "" then ""
    else Doubled(s[..|s| - 1]) + (if s[|s| - 1] == '"' then "\"\"" else [s[|s| - 1]])
  }

  function Escape(field: string): string {
    if NeedsQuote(field) then "\"" + Doubled(field) + "\"" else field
  }

  method CheckQuote(field: string) returns (q: bool)
    ensures q == NeedsQuote(field)
    ensures q <==> ',' in field || '"' in field || '\n' in field || '\r' in field
  {
    for i := 0 to |field|
      invariant forall j :: 0 <= j < i ==> !Special(field[j])
    {
      if Special(field[i]) {
        return true;
      }
    }
    return false;
  }

  lemma DoubledSnoc(pre: string, s: string, i: nat)
    requires i < |s|
    ensures pre + Doubled(s[..i + 1]) ==
            (if s[i] == '"' then pre + Doubled(s[..i]) + "\"" else pre + Doubled(s[..i])) + [s[i]]
  {
    assert s[..i + 1][..i] == s[..i];
  }

  lemma EscapeParts(out: string, field: string)
    requires NeedsQuote(field)
    ensures out + "\"" + Doubled(field) + "\"" == out + Escape(field)
  {
    Assoc(out, "\"", Doubled(field));
    Assoc(out, "\"" + Doubled(field), "\"");
  }

  method EscapeAppend(out: string, field: string) returns (r: string)
    ensures r == out + Escape(field)
    ensures if ',' in field || '"' in field || '\n' in field || '\r' in field
            then r == out + "\"" + Doubled(field) + "\"" else r == out + field
  {
    var quote := CheckQuote(field);
    if !quote {
      return out + field;
    }
    r := out + "\"";
    ghost var pre := r;
    for i := 0 to |field|
      invariant r == pre + Doubled(field[..i])
    {
      DoubledSnoc(pre, field, i);
      if field[i] == '"' {
        r := r + "\"";
      }
      r := r + [field[i]];
    }
    assert field[..|field|] == field;
    EscapeParts(out, field);
    r := r + "\"";
  }

  // ---- Parsing a line ----

  /** The fields found in `s`, inside quotes when `quoted`, with `cur` already read. */
  function Fields(s: string, quoted: bool, cur: string): (f: seq<string>)
    ensures f != []
    decreases |s|
  {
    if s == "" then [cur]
    else if quoted then
      if s[0] != '"' then Fields(s[1..], true, cur + [s[0]])
      else if |s| > 1 && s[1] == '"' then Fields(s[2..], true, cur + "\"")
      else Fields(s[1..], false, cur)
    else if s[0] == '"' then Fields(s[1..], true, cur)
    else if s[0] == ',' then [cur] + Fields(s[1..], false, "")
    else Fields(s[1..], false, cur + [s[0]])
  }

  function ParseLine(line: string): seq<string> {
    Fields(line, false, "")
  }

  method ParseCsvLine(line: string) returns (f: seq<string>)
    ensures f == ParseLine(line)
  {
    f := [];
    var cur, q, i := "", false, 0;
    while i < |line|
      invariant 0 <= i <= |line|
      invariant f + Fields(line[i..], q, cur) == ParseLine(line)
    {
      var ch := line[i];
      if q {
        if ch == '"' {
          if i + 1 < |line| && line[i + 1] == '"' {
            cur := cur + "\"";
            i := i + 1;
          } else {
            q := false;
          }
        } else {
          cur := cur + [ch];
        }
      } else if ch == '"' {
        q := true;
      } else if ch == ',' {
        f := f + [cur];
        cur := "";
      } else {
        cur := cur + [ch];
      }
      i := i + 1;
    }
    f := f + [cur];
  }

  // ---- Writing a line and reading it back ----

  function JoinFields(fields: seq<string>): string {
    if fields == [] then ""
    else if |fields| == 1 then Escape(fields[0])
    else Escape(fields[0]) + "," + JoinFields(fields[1..])
  }

  /** Text that stands for itself in an unquoted column. */
  predicate Bare(s: string) {
    ',' !in s && '"' !in s
  }

  lemma {:induction false} BareReads(a: string, rest: string, cur: string)
    requires Bare(a)
    ensures Fields(a + rest, false, cur) == Fields(rest, false, cur + a)
    decreases |a|
  {
    if a == "" {
      assert a + rest == rest && cur + a == cur;
    } else {
      assert a[0] in a;
      assert (a + rest)[1..] == a[1..] + rest;
      assert cur + [a[0]] + a[1..] == cur + a;
      BareReads(a[1..], rest, cur + [a[0]]);
    }
  }

  lemma {:induction false} DoubledCons(a: string)
    requires a != ""
    ensures Doubled(a) == (if a[0] == '"' then "\"\"" else [a[0]]) + Doubled(a[1..])
  {
    if |a| > 1 {
      var front := a[..|a| - 1];
      DoubledCons(front);
      assert front[1..] == a[1..][..|a| - 2];
      assert a[1..][|a| - 2] == a[|a| - 1];
    }
  }

  /** Inside quotes, doubled text followed by a quote that is not doubled reads back as the text. */
  lemma {:induction false} QuotedReads(a: string, rest: string, cur: string)
    requires rest == "" || rest[0] != '"'
    ensures Fields(Doubled(a) + "\"" + rest, true, cur) == Fields(rest, false, cur + a)
    decreases |a|
  {
    var s := Doubled(a) + "\"" + rest;
    if a == "" {
      assert s == "\"" + rest && s[1..] == rest && cur + a == cur;
    } else {
      DoubledCons(a);
      var tail := Doubled(a[1..]) + "\"" + rest;
      if a[0] == '"' {
        assert s == "\"\"" + tail && s[2..] == tail;
      } else {
        assert s == [a[0]] + tail && s[1..] == tail;
      }
      QuotedReads(a[1..], rest, cur + [a[0]]);
      assert cur + [a[0]] + a[1..] == cur + a;
    }
  }

  lemma OpenQuote(d: string, rest: string)
    ensures Fields("\"" + d + "\"" + rest, false, "") == Fields(d + "\"" + rest, true, "")
  {
    var s := "\"" + d + "\"" + rest;
    assert s[1..] == d + "\"" + rest;
  }

  lemma FieldReads(a: string, rest: string)
    requires rest == "" || rest[0] == ','
    ensures Fields(Escape(a) + rest, false, "") == Fields(rest, false, a)
  {
    assert "" + a == a;
    if NeedsQuote(a) {
      QuotedReads(a, rest, "");
      OpenQuote(Doubled(a), rest);
    } else {
      assert forall i :: 0 <= i < |a| ==> !Special(a[i]);
      BareReads(a, rest, "");
    }
  }

  /** A comma-joined line of escaped fields parses back to the fields. */
  lemma {:induction false} LineRoundTrip(fields: seq<string>)
    requires fields != []
    ensures ParseLine(JoinFields(fields)) == fields
  {
    var a := fields[0];
    if |fields| == 1 {
      assert Escape(a) + "" == Escape(a);
      FieldReads(a, "");
    } else {
      var rest := "," + JoinFields(fields[1..]);
      assert Escape(a) + "," + JoinFields(fields[1..]) == Escape(a) + rest;
      FieldReads(a, rest);
      assert rest[1..] == JoinFields(fields[1..]);
      LineRoundTrip(fields[1..]);
      assert [a] + fields[1..] == fields;
    }
  }

  // ---- Columns written without escaping ----

  /** Columns joined by commas, only the last one escaped: how both log writers build a line. */
  function RawJoin(cells: seq<string>): string {
    if cells == [] then ""
    else if |cells| == 1 then Escape(cells[0])
    else cells[0] + "," + RawJoin(cells[1..])
  }

  /** What has been read of a field is never taken back. */
  lemma {:induction false} FieldKeepsPrefix(s: string, quoted: bool, cur: string)
    ensures cur <= Fields(s, quoted, cur)[0]
    decreases |s|
  {
    if s != "" {
      if quoted {
        if s[0] != '"' {
          FieldKeepsPrefix(s[1..], true, cur + [s[0]]);
        } else if |s| > 1 && s[1] == '"' {
          FieldKeepsPrefix(s[2..], true, cur + "\"");
        } else {
          FieldKeepsPrefix(s[1..], false, cur);
        }
      } else if s[0] == '"' {
        FieldKeepsPrefix(s[1..], true, cur);
      } else if s[0] != ',' {
        FieldKeepsPrefix(s[1..], false, cur + [s[0]]);
      }
    }
  }

  /** A field that goes on with the wrong character stays wrong. */
  lemma WrongCharStays(s: string, quoted: bool, cur: string, c: char, owed: string)
    requires owed != "" && owed[0] != c
    ensures Fields(s, quoted, cur + [c])[0] != cur + owed
  {
    FieldKeepsPrefix(s, quoted, cur + [c]);
    assert (cur + [c])[|cur|] == c && (cur + owed)[|cur|] == owed[0];
  }

  predicate AllQuotes(s: string) {
    forall i :: 0 <= i < |s| ==> s[i] == '"'
  }

  /** Inside quotes opened by the field's own text, the reader owes the quotes it swallowed: it
      puts out at most one for every two it reads, so it never catches up. */
  lemma {:induction false} SwallowedQuoteIsLost(cur: string, owed: string, w: string, rest: string)
    requires owed != "" && AllQuotes(owed)
    ensures Fields(w + "," + rest, true, cur)[0] != cur + owed + w
    decreases |w|
  {
    var s := w + "," + rest;
    var due := owed + w;
    assert cur + owed + w == cur + due;
    if s[0] != '"' {
      WrongCharStays(s[1..], true, cur, s[0], due);
    } else if s[1] == '"' {
      SwallowedPair(cur, owed, w, rest);
    } else if s[1] == ',' {
      assert |cur + due| > |cur|;
    } else {
      assert s[1..][1..] == s[2..];
      WrongCharStays(s[2..], false, cur, s[1], due);
    }
  }

  lemma {:induction false} SwallowedPair(cur: string, owed: string, w: string, rest: string)
    requires owed != "" && AllQuotes(owed)
    requires var s := w + "," + rest; s[0] == '"' && s[1] == '"'
    ensures Fields(w + "," + rest, true, cur)[0] != cur + owed + w
    decreases |w|, 0
  {
    var s := w + "," + rest;
    assert w[0] == '"' && w[1] == '"';
    var owed' := owed[1..] + "\"\"";
    assert s[2..] == w[2..] + "," + rest;
    SwallowedQuoteIsLost(cur + "\"", owed', w[2..], rest);
    assert cur + "\"" + owed' + w[2..] == cur + owed + w;
  }

  /** The first character that is not bare splits the text. */
  lemma {:induction false} FirstOddChar(s: string) returns (a: string, c: char, b: string)
    requires !Bare(s)
    ensures s == a + [c] + b && Bare(a) && (c == ',' || c == '"')
  {
    if s[0] == ',' || s[0] == '"' {
      a, c, b := "", s[0], s[1..];
    } else {
      assert s == [s[0]] + s[1..];
      a, c, b := FirstOddChar(s[1..]);
      a := [s[0]] + a;
    }
  }

  /** A column written as it is reads back exactly when it is bare. */
  lemma RawColumnReadsBackIff(s: string, rest: string)
    ensures Fields(s + "," + rest, false, "")[0] == s <==> Bare(s)
  {
    if Bare(s) {
      RawColumnReads(s, rest);
    } else {
      var a, c, b := FirstOddChar(s);
      var after := b + "," + rest;
      assert s + "," + rest == a + ([c] + after);
      assert "" + a == a;
      BareReads(a, [c] + after, "");
      assert ([c] + after)[1..] == after;
      if c == '"' {
        SwallowedQuoteIsLost(a, "\"", b, rest);
      }
    }
  }

  lemma RawColumnReads(s: string, rest: string)
    requires Bare(s)
    ensures Fields(s + "," + rest, false, "") == [s] + ParseLine(rest)
  {
    assert s + "," + rest == s + ("," + rest);
    assert "" + s == s;
    BareReads(s, "," + rest, "");
    assert ("," + rest)[1..] == rest;
  }

  /** A bare piece in front of a comma is a column of its own. */
  lemma PieceReads(piece: string, more: string, rest: string)
    requires Bare(piece)
    ensures ParseLine(piece + "," + more + "," + rest) == [piece] + ParseLine(more + "," + rest)
  {
    Assoc(piece + ",", more, "," + rest);
    assert piece + "," + more + "," + rest == piece + "," + (more + "," + rest);
    RawColumnReads(piece, more + "," + rest);
  }

  /** A line of raw columns and an escaped last one parses back to its columns exactly when every raw
      column is bare. */
  lemma {:induction false} RawLineReadsBackIff(cells: seq<string>)
    requires cells != []
    ensures ParseLine(RawJoin(cells)) == cells <==> forall i :: 0 <= i < |cells| - 1 ==> Bare(cells[i])
  {
    if |cells| == 1 {
      LineRoundTrip(cells);
    } else {
      var rest := RawJoin(cells[1..]);
      RawColumnReadsBackIff(cells[0], rest);
      if Bare(cells[0]) {
        RawColumnReads(cells[0], rest);
        RawLineReadsBackIff(cells[1..]);
        assert cells == [cells[0]] + cells[1..];
        assert forall i :: 1 <= i < |cells| ==> cells[i] == cells[1..][i - 1];
      }
    }
  }

  /** Bare columns at the front read back whatever follows them. */
  lemma {:induction false} BarePrefixReads(cells: seq<string>, k: nat)
    requires k < |cells| && forall i :: 0 <= i < k ==> Bare(cells[i])
    ensures ParseLine(RawJoin(cells)) == cells[..k] + ParseLine(RawJoin(cells[k..]))
    decreases k
  {
    if k == 0 {
      assert cells[0..] == cells;
    } else {
      var rest := cells[1..];
      assert forall i :: 0 <= i < k - 1 ==> rest[i] == cells[i + 1];
      BarePrefixReads(rest, k - 1);
      RawColumnReads(cells[0], RawJoin(rest));
      assert rest[k - 1..] == cells[k..];
      assert [cells[0]] + rest[..k - 1] == cells[..k];
      Assoc([cells[0]], rest[..k - 1], ParseLine(RawJoin(cells[k..])));
    }
  }

  // ---- Decimal columns ----

  predicate IsDigit(c: char) {
    '0' <= c <= '9'
  }

  function DigitChar(d: int): (c: char)
    requires 0 <= d < 10
    ensures IsDigit(c) && DigitOf(c) == d
  {
    ['0', '1', '2', '3', '4', '5', '6', '7', '8', '9'][d]
  }

  function DigitOf(c: char): int
    requires IsDigit(c)
  {
    (c - '0') as int
  }

  function FormatNat(n: nat): (s: string)
    ensures s != "" && forall i :: 0 <= i < |s| ==> IsDigit(s[i])
  {
    if n < 10 then [DigitChar(n)] else FormatNat(n / 10) + [DigitChar(n % 10)]
  }

  function FormatInt(n: int): string {
    if n < 0 then "-" + FormatNat(-n) else FormatNat(n)
  }

  function ReadDigits(s: string, acc: nat): nat {
    if s == "" || !IsDigit(s[0]) then acc else ReadDigits(s[1..], 10 * acc + DigitOf(s[0]))
  }

  predicate IsBlank(c: char) {
    c == ' ' || '\t' <= c <= '\r'
  }

  function SkipBlanks(s: string): string {
    if s != "" && IsBlank(s[0]) then SkipBlanks(s[1..]) else s
  }

  predicate IsNegative(s: string) {
    var t := SkipBlanks(s);
    t != "" && t[0] == '-'
  }

  /** Blanks, an optional sign, then digits up to the first other character, as the C library's
      conversions read them. */
  function ReadMagnitude(s: string): nat {
    var t := SkipBlanks(s);
    ReadDigits(if t != "" && (t[0] == '-' || t[0] == '+') then t[1..] else t, 0)
  }

  function ReadInt(s: string): int {
    if IsNegative(s) then 0 - ReadMagnitude(s) else ReadMagnitude(s)
  }

  lemma {:induction false} ReadDigitsSnoc(s: string, c: char, acc: nat)
    requires forall i :: 0 <= i < |s| ==> IsDigit(s[i])
    requires IsDigit(c)
    ensures ReadDigits(s + [c], acc) == 10 * ReadDigits(s, acc) + DigitOf(c)
    decreases |s|
  {
    if s == "" {
      assert s + [c] == [c];
      assert ReadDigits([c][1..], 10 * acc + DigitOf(c)) == 10 * acc + DigitOf(c);
    } else {
      assert (s + [c])[1..] == s[1..] + [c];
      ReadDigitsSnoc(s[1..], c, 10 * acc + DigitOf(s[0]));
    }
  }

  lemma {:induction false} NatReadsBack(n: nat)
    ensures ReadDigits(FormatNat(n), 0) == n
  {
    if n < 10 {
      assert [DigitChar(n)][1..] == "";
    } else {
      NatReadsBack(n / 10);
      ReadDigitsSnoc(FormatNat(n / 10), DigitChar(n % 10), 0);
    }
  }

  lemma MagnitudeReadsBack(n: nat)
    ensures ReadMagnitude(FormatNat(n)) == n && !IsNegative(FormatNat(n))
  {
    NatReadsBack(n);
  }

  lemma IntReadsBack(n: int)
    ensures ReadInt(FormatInt(n)) == n
  {
    if n < 0 {
      NatReadsBack(-n);
      assert FormatInt(n)[1..] == FormatNat(-n);
    } else {
      MagnitudeReadsBack(n);
    }
  }

  lemma {:induction false} BlanksAreSkipped(b: string, t: string)
    requires forall i :: 0 <= i < |b| ==> IsBlank(b[i])
    ensures SkipBlanks(b + t) == SkipBlanks(t)
  {
    if b == "" {
      assert b + t == t;
    } else {
      assert (b + t)[0] == b[0] && (b + t)[1..] == b[1..] + t;
      BlanksAreSkipped(b[1..], t);
    }
  }

  /** Leading blanks and a plus sign change nothing; a minus sign negates. */
  lemma BlanksAndSignsRead(b: string, n: nat)
    requires forall i :: 0 <= i < |b| ==> b[i] == ' ' || '\t' <= b[i] <= '\r'
    ensures ReadInt(b + FormatNat(n)) == n && ReadInt(b + ("+" + FormatNat(n))) == n
    ensures ReadInt(b + ("-" + FormatNat(n))) == 0 - n
  {
    var d := FormatNat(n);
    BlanksAreSkipped(b, d);
    BlanksAreSkipped(b, "+" + d);
    BlanksAreSkipped(b, "-" + d);
    assert ("+" + d)[1..] == d && ("-" + d)[1..] == d;
    NatReadsBack(n);
  }

  // ---- Lines of a file ----

  predicate OneLine(s: string) {
    '\n' !in s
  }

  /** What repeated getline yields: the text between line feeds, a last unterminated line included. */
  function LinesFrom(text: string, cur: string): seq<string> {
    if text == "" then (if cur == "" then [] else [cur])
    else if text[0] == '\n' then [cur] + LinesFrom(text[1..], "")
    else LinesFrom(text[1..], cur + [text[0]])
  }

  function Lines(text: string): seq<string> {
    LinesFrom(text, "")
  }

  function Terminated(lines: seq<string>): string {
    if lines == [] then "" else lines[0] + "\n" + Terminated(lines[1..])
  }

  lemma {:induction false} LineReads(line: string, rest: string, cur: string)
    requires OneLine(line)
    ensures LinesFrom(line + "\n" + rest, cur) == [cur + line] + LinesFrom(rest, "")
    decreases |line|
  {
    var s := line + "\n" + rest;
    if line == "" {
      assert s == "\n" + rest && s[1..] == rest && cur + line == cur;
    } else {
      assert s[0] == line[0] && s[1..] == line[1..] + "\n" + rest;
      LineReads(line[1..], rest, cur + [line[0]]);
      assert cur + [line[0]] + line[1..] == cur + line;
    }
  }

  lemma {:induction false} BrokenLineReads(line: string, rest: string, cur: string)
    requires !OneLine(line)
    ensures |LinesFrom(line + "\n" + rest, cur)| > 1 + |LinesFrom(rest, "")|
    decreases |line|
  {
    var s := line + "\n" + rest;
    assert s[0] == line[0] && s[1..] == line[1..] + "\n" + rest;
    var cur' := if s[0] == '\n' then "" else cur + [s[0]];
    if OneLine(line[1..]) {
      LineReads(line[1..], rest, cur');
      assert line == [line[0]] + line[1..];
    } else {
      BrokenLineReads(line[1..], rest, cur');
    }
  }

  /** Terminated lines read back, unless one of them holds a line feed: then more lines come back. */
  lemma {:induction false} LinesReadBack(lines: seq<string>)
    ensures (forall i :: 0 <= i < |lines| ==> OneLine(lines[i])) ==> Lines(Terminated(lines)) == lines
    ensures (exists i :: 0 <= i < |lines| && !OneLine(lines[i])) ==> |Lines(Terminated(lines))| > |lines|
  {
    if lines != [] {
      var rest := lines[1..];
      LinesReadBack(rest);
      assert lines == [lines[0]] + rest && "" + lines[0] == lines[0];
      assert |Lines(Terminated(rest))| >= |rest|;
      if OneLine(lines[0]) {
        LineReads(lines[0], Terminated(rest), "");
        assert forall i :: 1 <= i < |lines| ==> lines[i] == rest[i - 1];
      } else {
        BrokenLineReads(lines[0], Terminated(rest), "");
      }
    }
  }

  lemma {:induction false} TailReads(line: string, cur: string)
    requires OneLine(line)
    ensures LinesFrom(line, cur) == if cur + line == "" then [] else [cur + line]
    decreases |line|
  {
    if line == "" {
      assert cur + line == cur;
    } else {
      TailReads(line[1..], cur + [line[0]]);
      assert cur + [line[0]] + line[1..] == cur + line;
    }
  }

  /** A last line without its line feed is read all the same, unless it is empty. */
  lemma {:induction false} UnterminatedLineReads(lines: seq<string>, last: string)
    requires OneLine(last) && forall i :: 0 <= i < |lines| ==> OneLine(lines[i])
    ensures Lines(Terminated(lines) + last) == lines + if last == "" then [] else [last]
  {
    if lines == [] {
      assert Terminated(lines) + last == last && "" + last == last;
      TailReads(last, "");
    } else {
      var rest := Terminated(lines[1..]);
      assert Terminated(lines) + last == lines[0] + "\n" + (rest + last);
      LineReads(lines[0], rest + last, "");
      assert "" + lines[0] == lines[0];
      UnterminatedLineReads(lines[1..], last);
      assert lines == [lines[0]] + lines[1..];
    }
  }

  /** Escaping neither adds nor removes line feeds. */
  lemma {:induction false} DoubledOneLine(s: string)
    ensures OneLine(Doubled(s)) <==> OneLine(s)
  {
    if s != "" {
      DoubledOneLine(s[..|s| - 1]);
      assert s == s[..|s| - 1] + [s[|s| - 1]];
    }
  }

  lemma {:induction false} RawJoinOneLine(cells: seq<string>)
    ensures OneLine(RawJoin(cells)) <==> forall i :: 0 <= i < |cells| ==> OneLine(cells[i])
  {
    if |cells| == 1 {
      DoubledOneLine(cells[0]);
    } else if cells != [] {
      RawJoinOneLine(cells[1..]);
      assert forall i :: 1 <= i < |cells| ==> cells[i] == cells[1..][i - 1];
    }
  }
}
