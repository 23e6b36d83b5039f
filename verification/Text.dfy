/** Searching a text for a character and cutting it there. */
module Text {

  function FindFrom(t: string, i: nat, c: char): (k: nat)
    requires i <= |t|
    ensures i <= k <= |t|
    ensures forall j :: i <= j < k ==> t[j] != c
    ensures k < |t| ==> t[k] == c
    decreases |t| - i
  {
    if i == |t| || t[i] == c then i else FindFrom(t, i + 1, c)
  }

  lemma {:induction false} FoundAt(t: string, i: nat, c: char, k: nat)
    requires i <= k <= |t|
    requires forall j :: i <= j < k ==> t[j] != c
    requires k < |t| ==> t[k] == c
    ensures FindFrom(t, i, c) == k
    decreases k - i
  {
    if i < k {
      FoundAt(t, i + 1, c, k);
    }
  }

  /** The text before the first `c` and the text after it. */
  datatype Cut = NotFound | Cut(before: string, after: string)

  function CutAt(t: string, c: char): (r: Cut)
    ensures r.Cut? ==> |r.after| < |t|
  {
    var k := FindFrom(t, 0, c);
    if k == |t| then NotFound else Cut(t[..k], t[k + 1..])
  }

  lemma CutParts(t: string, c: char)
    ensures var r := CutAt(t, c);
      if r.NotFound? then c !in t else t == r.before + [c] + r.after && c !in r.before
  {
  }

  lemma NoCut(t: string, c: char)
    requires c !in t
    ensures CutAt(t, c).NotFound?
  {
  }

  lemma CutText(before: string, c: char, after: string)
    requires c !in before
    ensures CutAt(before + [c] + after, c) == Cut(before, after)
  {
    var t := before + [c] + after;
    assert forall j :: 0 <= j < |before| ==> t[j] == before[j];
    FoundAt(t, 0, c, |before|);
    assert t[..|before|] == before && t[|before| + 1..] == after;
  }
}
