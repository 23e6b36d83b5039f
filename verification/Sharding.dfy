/** Spreading symbols over connections: duplicates removed, symbols dealt round-robin, and the
    stream limit checked before the capture starts. */
module Sharding {
  import opened MarketTypes

  const STREAMS_PER_SYMBOL: nat := 3
  const MAX_COMBINED_STREAMS: nat := 1024

  // ---- Duplicates ----

  /** The first occurrence of every symbol, in order. */
  function Unique(s: seq<string>): seq<string> {
    if s == [] then []
    else
      var u, x := Unique(s[..|s| - 1]), s[|s| - 1];
      if x in u then u else u + [x]
  }

  predicate NoRepeats(s: seq<string>) {
    forall i, j :: 0 <= i < j < |s| ==> s[i] != s[j]
  }

  lemma {:induction false} UniqueIsASet(s: seq<string>)
    ensures NoRepeats(Unique(s))
    ensures forall x :: x in Unique(s) <==> x in s
  {
    if s != [] {
      UniqueIsASet(s[..|s| - 1]);
      assert s == s[..|s| - 1] + [s[|s| - 1]];
    }
  }

  /** `pos` lists, in order, the positions of `s` at which a symbol occurs for the first time. */
  ghost predicate FirstPlaces(s: seq<string>, u: seq<string>, pos: seq<nat>) {
    && |pos| == |u|
    && (forall k :: 0 <= k < |u| ==> pos[k] < |s| && s[pos[k]] == u[k] && s[pos[k]] !in s[..pos[k]])
    && (forall k, l :: 0 <= k < l < |u| ==> pos[k] < pos[l])
  }

  lemma {:induction false} UniqueKeepsOrder(s: seq<string>) returns (pos: seq<nat>)
    ensures FirstPlaces(s, Unique(s), pos)
  {
    if s == [] {
      pos := [];
    } else {
      var front, x := s[..|s| - 1], s[|s| - 1];
      pos := UniqueKeepsOrder(front);
      UniqueIsASet(front);
      assert forall i :: 0 <= i < |front| ==> s[i] == front[i] && s[..i] == front[..i];
      if x !in Unique(front) {
        assert s[..|front|] == front;
        pos := pos + [|front|];
      }
    }
  }

  method RemoveRepeats(symbols: seq<string>) returns (u: seq<string>)
    ensures u == Unique(symbols)
    ensures NoRepeats(u) && forall x :: x in u <==> x in symbols
    ensures exists pos :: FirstPlaces(symbols, u, pos)
  {
    u := [];
    for i := 0 to |symbols|
      invariant u == Unique(symbols[..i])
    {
      assert symbols[..i + 1][..i] == symbols[..i];
      if symbols[i] !in u {
        u := u + [symbols[i]];
      }
    }
    assert symbols[..|symbols|] == symbols;
    UniqueIsASet(symbols);
    ghost var pos := UniqueKeepsOrder(symbols);
  }

  // ---- Dealing ----

  /** The number of groups: at least one, and no more than there are symbols. */
  function GroupCount(size: nat, shards: int): (n: nat)
    ensures n > 0
    ensures n == Min(Max(shards, 1), Max(size, 1))
  {
    var n := if shards < 1 then 1 else shards;
    if n > size then (if size == 0 then 1 else size) else n
  }

  /** The symbols at positions j, j + n, j + 2n, ... */
  function Dealt(s: seq<string>, n: nat, j: nat): seq<string>
    requires n > 0
  {
    if s == [] then []
    else Dealt(s[..|s| - 1], n, j) + if (|s| - 1) % n == j then [s[|s| - 1]] else []
  }

  method ShardSymbols(symbols: seq<string>, shards: int) returns (out: seq<seq<string>>)
    ensures var n := GroupCount(|symbols|, shards);
      |out| == n && forall j :: 0 <= j < n ==> out[j] == Dealt(symbols, n, j)
    ensures |out| == Min(Max(shards, 1), Max(|symbols|, 1))
  {
    var n := GroupCount(|symbols|, shards);
    out := seq(n, _ => []);
    for i := 0 to |symbols|
      invariant |out| == n
      invariant forall j :: 0 <= j < n ==> out[j] == Dealt(symbols[..i], n, j)
    {
      assert symbols[..i + 1][..i] == symbols[..i];
      out := out[i % n := out[i % n] + [symbols[i]]];
    }
    assert symbols[..|symbols|] == symbols;
  }

  /** How many of the first `m` positions belong to group `j`. */
  function Share(m: nat, n: nat, j: nat): nat
    requires j < n
  {
    (m + n - 1 - j) / n
  }

  lemma ShareAt(q: nat, r: nat, n: nat, j: nat)
    requires r < n && j < n
    ensures Share(q * n + r, n, j) == q + if j < r then 1 else 0
  {
    var x := q * n + r + n - 1 - j;
    if j < r {
      Distribute(q, n);
      DivModOf(x, q + 1, n, r - 1 - j);
    } else {
      DivModOf(x, q, n, r + n - 1 - j);
    }
  }

  lemma DivMod(m: nat, n: nat) returns (q: nat, r: nat)
    requires n > 0
    ensures q == m / n && r == m % n && r < n && m == q * n + r
  {
    q, r := m / n, m % n;
  }

  lemma ShareGrows(m: nat, n: nat, j: nat)
    requires j < n
    ensures Share(m + 1, n, j) == Share(m, n, j) + if m % n == j then 1 else 0
    ensures m % n == j ==> m == j + Share(m, n, j) * n
  {
    var q, r := DivMod(m, n);
    ShareAt(q, r, n, j);
    if r + 1 < n {
      ShareAt(q, r + 1, n, j);
    } else {
      Distribute(q, n);
      ShareAt(q + 1, 0, n, j);
    }
  }

  lemma Distribute(q: nat, n: nat)
    ensures (q + 1) * n == q * n + n
  {
  }

  /** Group `j` holds exactly its share, and its k-th symbol is the one at position j + k * n. */
  lemma {:induction false} DealtIsStride(s: seq<string>, n: nat, j: nat)
    requires j < n
    ensures |Dealt(s, n, j)| == Share(|s|, n, j)
    ensures forall k :: 0 <= k < |Dealt(s, n, j)| ==> 0 <= j + k * n < |s| && Dealt(s, n, j)[k] == s[j + k * n]
    decreases |s|
  {
    if s == [] {
      DivModOf(n - 1 - j, 0, n, n - 1 - j);
    } else {
      var m := |s| - 1;
      DealtIsStride(s[..m], n, j);
      ShareGrows(m, n, j);
    }
  }

  lemma ShareIs(m: nat, n: nat, j: nat)
    requires j < n
    ensures Share(m, n, j) == m / n + if j < m % n then 1 else 0
  {
    var q, r := DivMod(m, n);
    ShareAt(q, r, n, j);
  }

  // ---- The stream limit ----

  /** The check a live configuration must pass; `shards` is at least one by then. */
  predicate WithinLimit(size: nat, shards: nat)
    requires size > 0 && shards > 0
  {
    var count := if size < shards then size else shards;
    (size + count - 1) / count * STREAMS_PER_SYMBOL <= MAX_COMBINED_STREAMS
  }

  /** The check accepts exactly the configurations in which no group exceeds the limit. */
  lemma LimitIsExact(symbols: seq<string>, shards: nat)
    requires symbols != [] && shards > 0
    ensures var n := GroupCount(|symbols|, shards);
      WithinLimit(|symbols|, shards) <==>
        forall j :: 0 <= j < n ==> 3 * |Dealt(symbols, n, j)| <= 1024
  {
    var n := GroupCount(|symbols|, shards);
    var m := |symbols|;
    assert (m + n - 1) / n == Share(m, n, 0);
    forall j | 0 <= j < n
      ensures |Dealt(symbols, n, j)| <= Share(m, n, 0)
    {
      DealtIsStride(symbols, n, j);
      ShareIs(m, n, j);
      ShareIs(m, n, 0);
    }
    DealtIsStride(symbols, n, 0);
  }

  /** Every symbol is dealt to a group, and groups keep the order. */
  lemma EverySymbolIsDealt(symbols: seq<string>, shards: int, i: nat)
    requires i < |symbols|
    ensures var n := GroupCount(|symbols|, shards);
      i / n < |Dealt(symbols, n, i % n)| && Dealt(symbols, n, i % n)[i / n] == symbols[i]
  {
    var n := GroupCount(|symbols|, shards);
    var q, r := DivMod(i, n);
    DealtIsStride(symbols, n, r);
    PlaceIsWithinShare(|symbols|, n, i);
    assert Dealt(symbols, n, r)[q] == symbols[r + q * n];
  }

  /** Without repeats, no symbol is dealt to a second group or twice to one. */
  lemma NoSymbolIsDealtTwice(symbols: seq<string>, shards: int, i: nat, j: nat, k: nat)
    requires NoRepeats(symbols) && i < |symbols|
    requires j < GroupCount(|symbols|, shards) && k < |Dealt(symbols, GroupCount(|symbols|, shards), j)|
    requires Dealt(symbols, GroupCount(|symbols|, shards), j)[k] == symbols[i]
    ensures var n := GroupCount(|symbols|, shards); j == i % n && k == i / n
  {
    var n := GroupCount(|symbols|, shards);
    DealtIsStride(symbols, n, j);
    var at := j + k * n;
    assert symbols[at] == symbols[i];
    DivModOf(at, k, n, j);
  }

  /** Group sizes differ by at most one. */
  lemma GroupsAreEven(symbols: seq<string>, shards: int, j: nat, k: nat)
    requires j < GroupCount(|symbols|, shards) && k < GroupCount(|symbols|, shards)
    ensures var n := GroupCount(|symbols|, shards); |Dealt(symbols, n, j)| <= |Dealt(symbols, n, k)| + 1
  {
    var n := GroupCount(|symbols|, shards);
    DealtIsStride(symbols, n, j);
    DealtIsStride(symbols, n, k);
    ShareIs(|symbols|, n, j);
    ShareIs(|symbols|, n, k);
  }

  lemma PlaceIsWithinShare(m: nat, n: nat, i: nat)
    requires n > 0 && i < m
    ensures i / n < Share(m, n, i % n)
  {
    var a, b := DivMod(m, n);
    var q, r := DivMod(i, n);
    ShareAt(a, b, n, r);
    QuotientOrder(a, b, q, r, n);
  }

  lemma QuotientOrder(a: nat, b: nat, q: nat, r: nat, n: nat)
    requires q * n + r < a * n + b && b < n
    ensures q < a || (q == a && r < b)
  {
    var d := q - a;
    assert d * n == q * n - a * n;
    assert d >= 1 ==> d * n >= n;
  }
}
