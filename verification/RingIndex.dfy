/** Index arithmetic of the ring: `(i + 1) & mask` walks the slots in a circle exactly when the
    capacity is a power of two. */
module RingIndex {
  import opened MarketTypes

  /** Bitwise and of two naturals. */
  function BitAnd(a: nat, b: nat): nat {
    if a == 0 || b == 0 then 0
    else 2 * BitAnd(a / 2, b / 2) + (if a % 2 == 1 && b % 2 == 1 then 1 else 0)
  }

  function Pow2(k: nat): (p: nat)
    ensures p > 0
  {
    if k == 0 then 1 else 2 * Pow2(k - 1)
  }

  ghost predicate IsPow2(c: nat) {
    exists k: nat :: c == Pow2(k)
  }

  lemma {:induction false} MaskIsMod(x: nat, k: nat)
    ensures BitAnd(x, Pow2(k) - 1) == x % Pow2(k)
    decreases k
  {
    if k == 0 {
    } else {
      var half := Pow2(k - 1);
      MaskIsMod(x / 2, k - 1);
      assert (Pow2(k) - 1) / 2 == half - 1 && (Pow2(k) - 1) % 2 == 1;
      HalveMod(x, half);
      if x == 0 {
        assert x % Pow2(k) == 0;
      }
    }
  }

  lemma HalveMod(x: nat, half: nat)
    requires half > 0
    ensures x % (2 * half) == 2 * ((x / 2) % half) + x % 2
  {
    var q, r := (x / 2) / half, (x / 2) % half;
    assert x / 2 == q * half + r;
    var y := 2 * r + x % 2;
    assert x == q * (2 * half) + y by {
      assert x == 2 * (x / 2) + x % 2;
      assert 2 * (q * half) == q * (2 * half);
    }
    DivModOf(x, q, 2 * half, y);
  }

  lemma {:induction false} BitAndSelf(a: nat)
    ensures BitAnd(a, a) == a
  {
    if a != 0 {
      BitAndSelf(a / 2);
    }
  }

  lemma {:induction false} NoCommonBitMeansPow2(c: nat)
    requires c > 0 && BitAnd(c, c - 1) == 0
    ensures IsPow2(c)
  {
    if c == 1 {
      assert c == Pow2(0);
    } else if c % 2 == 1 {
      BitAndSelf(c / 2);
    } else {
      assert (c - 1) / 2 == c / 2 - 1;
      NoCommonBitMeansPow2(c / 2);
      var k: nat :| c / 2 == Pow2(k);
      assert c == Pow2(k + 1);
    }
  }

  /** Masking is reduction modulo the capacity for every index iff the capacity is a power of two. */
  lemma MaskIsModIffPow2(c: nat)
    requires c > 0
    ensures IsPow2(c) <==> forall x: nat :: BitAnd(x, c - 1) == x % c
  {
    if IsPow2(c) {
      var k: nat :| c == Pow2(k);
      forall x: nat ensures BitAnd(x, c - 1) == x % c {
        MaskIsMod(x, k);
      }
    }
    if forall x: nat :: BitAnd(x, c - 1) == x % c {
      assert BitAnd(c, c - 1) == c % c;
      DivModOf(c, 1, c, 0);
      NoCommonBitMeansPow2(c);
    }
  }

  // ---- Counters and slots ----

  /** The slot of the `k`-th record: `k` modulo the capacity, by counting off. */
  function Slot(k: nat, cap: nat): (i: nat)
    requires cap > 0
    ensures i < cap
  {
    if k < cap then k else Slot(k - cap, cap)
  }

  lemma {:induction false} SlotIsMod(k: nat, cap: nat)
    requires cap > 0
    ensures Slot(k, cap) == k % cap
  {
    if k < cap {
      DivModOf(k, 0, cap, k);
    } else {
      SlotIsMod(k - cap, cap);
      DivModOf(k, (k - cap) / cap + 1, cap, (k - cap) % cap);
    }
  }

  lemma {:induction false} SlotStep(k: nat, cap: nat)
    requires cap > 0
    ensures Slot(k + 1, cap) == if Slot(k, cap) + 1 == cap then 0 else Slot(k, cap) + 1
  {
    if k >= cap {
      SlotStep(k - cap, cap);
    }
  }

  /** Two records less than a full turn apart are in different slots. */
  lemma {:induction false} SlotsDiffer(a: nat, b: nat, cap: nat)
    requires cap > 0 && a < b < a + cap
    ensures Slot(a, cap) != Slot(b, cap)
  {
    if a >= cap {
      SlotsDiffer(a - cap, b - cap, cap);
    }
  }

  /** The masked successor of a record's slot is the next record's slot. */
  lemma MaskedNext(k: nat, cap: nat)
    requires IsPow2(cap)
    ensures BitAnd(Slot(k, cap) + 1, cap - 1) == Slot(k + 1, cap)
  {
    MaskIsModIffPow2(cap);
    SlotStep(k, cap);
    var i := Slot(k, cap) + 1;
    if i == cap {
      DivModOf(i, 1, cap, 0);
    } else {
      DivModOf(i, 0, cap, i);
    }
  }
}
