/**
 Unsigned bit masks as natural numbers, and the three mask loops of the session,
 each proved against the set of frame counters the mask stands for.
 */
module Bits {
  const MAX_FRAME_INDEX: nat := 16

  function Pow2(k: nat): nat {
    if k == 0 then 1 else 2 * Pow2(k - 1)
  }

  /** `1U << k`, which C++ leaves undefined from 32 up. */
  function Shl1(k: nat): nat
    requires k < 32
  {
    Pow2(k)
  }

  predicate Bit(m: nat, i: nat)
    decreases i
  {
    if i == 0 then m % 2 == 1 else Bit(m / 2, i - 1)
  }

  function And(a: nat, b: nat): nat {
    if a == 0 || b == 0 then 0 else 2 * And(a / 2, b / 2) + (if a % 2 == 1 && b % 2 == 1 then 1 else 0)
  }

  function Or(a: nat, b: nat): nat {
    if a == 0 && b == 0 then 0 else 2 * Or(a / 2, b / 2) + (if a % 2 == 1 || b % 2 == 1 then 1 else 0)
  }

  /** The counters whose bit is set. */
  function BitSet(m: nat): set<nat> {
    set i: nat | i < 32 && Bit(m, i)
  }

  lemma {:induction false} NoBits(i: nat)
    ensures !Bit(0, i)
    decreases i
  {
    if i > 0 { NoBits(i - 1); }
  }

  lemma {:induction false} BitOfAnd(a: nat, b: nat, i: nat)
    ensures Bit(And(a, b), i) <==> Bit(a, i) && Bit(b, i)
    decreases i
  {
    if a == 0 || b == 0 {
      NoBits(i);
    } else if i > 0 {
      assert And(a, b) / 2 == And(a / 2, b / 2);
      BitOfAnd(a / 2, b / 2, i - 1);
    }
  }

  lemma {:induction false} BitOfOr(a: nat, b: nat, i: nat)
    ensures Bit(Or(a, b), i) <==> Bit(a, i) || Bit(b, i)
    decreases i
  {
    if a == 0 && b == 0 {
      NoBits(i);
    } else if i > 0 {
      assert Or(a, b) / 2 == Or(a / 2, b / 2);
      BitOfOr(a / 2, b / 2, i - 1);
    }
  }

  lemma {:induction false} BitOfPow2(k: nat, i: nat)
    ensures Bit(Pow2(k), i) <==> i == k
    decreases i
  {
    if i > 0 {
      if k == 0 {
        NoBits(i - 1);
      } else {
        BitOfPow2(k - 1, i - 1);
      }
    }
  }

  lemma {:induction false} OrBound(a: nat, b: nat, n: nat)
    requires a < Pow2(n) && b < Pow2(n)
    ensures Or(a, b) < Pow2(n)
    decreases n
  {
    if n > 0 && (a != 0 || b != 0) {
      OrBound(a / 2, b / 2, n - 1);
    }
  }

  lemma {:induction false} Pow2Below(k: nat, n: nat)
    requires k < n
    ensures Pow2(k) < Pow2(n)
    decreases n
  {
    if k > 0 {
      Pow2Below(k - 1, n - 1);
    } else if n > 1 {
      Pow2Below(0, n - 1);
    }
  }

  lemma {:induction false} BitBelow(m: nat, n: nat, i: nat)
    requires m < Pow2(n) && Bit(m, i)
    ensures i < n
    decreases n
  {
    if n == 0 {
      NoBits(i);
    } else if i > 0 {
      BitBelow(m / 2, n - 1, i - 1);
    }
  }

  /** Position of the lowest set bit. */
  function Lowest(m: nat): nat
    requires m > 0
  {
    if m % 2 == 1 then 0 else 1 + Lowest(m / 2)
  }

  lemma {:induction false} LowestBit(m: nat)
    requires m > 0
    ensures Bit(m, Lowest(m)) && forall i: nat :: i < Lowest(m) ==> !Bit(m, i)
  {
    if m % 2 == 0 {
      LowestBit(m / 2);
    }
  }

  lemma {:induction false} AndSelf(a: nat)
    ensures And(a, a) == a
  {
    if a > 0 { AndSelf(a / 2); }
  }

  /** `v & (v - 1)` keeps every bit but the lowest. */
  lemma {:induction false} ClearLowest(v: nat, i: nat)
    requires v > 0
    ensures And(v, v - 1) < v
    ensures Bit(And(v, v - 1), i) <==> Bit(v, i) && i != Lowest(v)
    decreases v
  {
    if v % 2 == 1 {
      AndSelf(v / 2);
      assert And(v, v - 1) == v - 1;
    } else {
      assert (v - 1) / 2 == v / 2 - 1;
      assert And(v, v - 1) == 2 * And(v / 2, v / 2 - 1);
      ClearLowest(v / 2, if i > 0 then i - 1 else 0);
    }
  }

  /** Kernighan's loop. */
  method Popcount32(mask: nat) returns (bits: nat)
    requires mask < Pow2(32)
    ensures bits == |BitSet(mask)|
  {
    bits := 0;
    var value: nat := mask;
    while value != 0
      invariant value < Pow2(32)
      invariant bits + |BitSet(value)| == |BitSet(mask)|
    {
      var next := And(value, value - 1);
      LowestBit(value);
      BitBelow(value, 32, Lowest(value));
      forall i: nat ensures next < value && (Bit(next, i) <==> Bit(value, i) && i != Lowest(value)) {
        ClearLowest(value, i);
      }
      assert BitSet(next) == BitSet(value) - {Lowest(value)};
      value := next;
      bits := bits + 1;
    }
    forall i: nat ensures !Bit(0, i) { NoBits(i); }
    assert BitSet(0) == {};
  }

  // ---------------------------------------------------------------------------
  // The first counter of a transfer, and its unbroken run
  // ---------------------------------------------------------------------------

  /** The lowest counter seen at or after `i`, or the ceiling. */
  function LowestFrom(seen: set<nat>, i: nat): (c: nat)
    ensures i <= MAX_FRAME_INDEX ==> c <= MAX_FRAME_INDEX
    decreases MAX_FRAME_INDEX - i
  {
    if i >= MAX_FRAME_INDEX || i in seen then i else LowestFrom(seen, i + 1)
  }

  /** How many consecutive counters were seen from `base` on. */
  function RunFrom(seen: set<nat>, base: nat): nat
    decreases MAX_FRAME_INDEX + 1 - base
  {
    if base <= MAX_FRAME_INDEX && base in seen then 1 + RunFrom(seen, base + 1) else 0
  }

  lemma {:induction false} LowestIsMinimum(seen: set<nat>, i: nat, c: nat)
    requires c in seen && i <= c <= MAX_FRAME_INDEX
    ensures LowestFrom(seen, i) in seen && i <= LowestFrom(seen, i) <= c
    decreases MAX_FRAME_INDEX - i
  {
    if i < MAX_FRAME_INDEX && i !in seen {
      LowestIsMinimum(seen, i + 1, c);
    }
  }

  lemma {:induction false} LowestIs(seen: set<nat>, i: nat, c: nat)
    requires c in seen && i <= c <= MAX_FRAME_INDEX && forall j :: i <= j < c ==> j !in seen
    ensures LowestFrom(seen, i) == c
    decreases MAX_FRAME_INDEX - i
  {
    if i < c {
      LowestIs(seen, i + 1, c);
    }
  }

  lemma {:induction false} RunIsMaximal(seen: set<nat>, base: nat)
    ensures base <= MAX_FRAME_INDEX + 1 ==> base + RunFrom(seen, base) <= MAX_FRAME_INDEX + 1
    ensures forall i :: base <= i < base + RunFrom(seen, base) ==> i in seen
    ensures base + RunFrom(seen, base) <= MAX_FRAME_INDEX ==> base + RunFrom(seen, base) !in seen
    decreases MAX_FRAME_INDEX + 1 - base
  {
    if base <= MAX_FRAME_INDEX && base in seen {
      RunIsMaximal(seen, base + 1);
    }
  }

  lemma {:induction false} RunIs(seen: set<nat>, base: nat, n: nat)
    requires base + n <= MAX_FRAME_INDEX + 1 && base + n !in seen
    requires forall i :: base <= i < base + n ==> i in seen
    ensures RunFrom(seen, base) == n
    decreases n
  {
    if n > 0 {
      RunIs(seen, base + 1, n - 1);
    }
  }

  /** Shifts right until the lowest set bit comes down to position 0. */
  method LowestFrameNo(mask: nat) returns (index: nat)
    requires 0 < mask < Pow2(MAX_FRAME_INDEX + 1)
    ensures index == LowestFrom(BitSet(mask), 0) && index in BitSet(mask)
  {
    index := 0;
    var m: nat := mask;
    while m % 2 == 0
      invariant m > 0 && index + Lowest(m) == Lowest(mask)
      decreases m
    {
      m := m / 2;
      index := index + 1;
    }
    LowestBit(mask);
    BitBelow(mask, MAX_FRAME_INDEX + 1, index);
    LowestIs(BitSet(mask), 0, index);
  }

  method ContiguousFrames(mask: nat, base: nat) returns (run: nat)
    requires mask < Pow2(MAX_FRAME_INDEX + 1) && base <= MAX_FRAME_INDEX
    ensures run == RunFrom(BitSet(mask), base)
  {
    hide Pow2, And, BitSet, Bit;
    run := 0;
    while And(mask, Shl1(base + run)) != 0
      invariant base + run <= MAX_FRAME_INDEX + 1
      invariant RunFrom(BitSet(mask), base) == run + RunFrom(BitSet(mask), base + run)
      decreases MAX_FRAME_INDEX + 1 - base - run
    {
      TestMask(mask, base + run);
      run := run + 1;
    }
    TestMask(mask, base + run);
  }

  lemma TestBit(mask: nat, k: nat)
    requires k < 32
    ensures And(mask, Shl1(k)) != 0 <==> Bit(mask, k)
  {
  }

  /** The loop's test is membership, and never holds past the ceiling. */
  lemma TestMask(mask: nat, k: nat)
    requires mask < Pow2(MAX_FRAME_INDEX + 1) && k < 32
    ensures And(mask, Shl1(k)) != 0 <==> k in BitSet(mask)
    ensures And(mask, Shl1(k)) != 0 ==> k <= MAX_FRAME_INDEX
  {
    TestBit(mask, k);
    if Bit(mask, k) {
      BitBelow(mask, MAX_FRAME_INDEX + 1, k);
    }
  }

  /** `mask |= 1U << k` adds k to the set and keeps the mask below 2^17. */
  lemma InsertBit(mask: nat, k: nat)
    requires mask < Pow2(MAX_FRAME_INDEX + 1) && k <= MAX_FRAME_INDEX
    ensures Or(mask, Shl1(k)) < Pow2(MAX_FRAME_INDEX + 1)
    ensures BitSet(Or(mask, Shl1(k))) == BitSet(mask) + {k}
  {
    Pow2Below(k, MAX_FRAME_INDEX + 1);
    OrBound(mask, Shl1(k), MAX_FRAME_INDEX + 1);
    forall i: nat | i < 32
      ensures Bit(Or(mask, Shl1(k)), i) <==> Bit(mask, i) || i == k
    {
      BitOfOr(mask, Shl1(k), i);
      BitOfPow2(k, i);
    }
  }

  /** Counters never exceed the ceiling, so at most seventeen frames are ever counted. */
  lemma MaskBound(mask: nat)
    requires mask < Pow2(MAX_FRAME_INDEX + 1)
    ensures forall i :: i in BitSet(mask) ==> i <= MAX_FRAME_INDEX
    ensures BitSet(mask) == {} <==> mask == 0
  {
    forall i | i in BitSet(mask)
      ensures i <= MAX_FRAME_INDEX
    {
      BitBelow(mask, MAX_FRAME_INDEX + 1, i);
    }
    if mask > 0 {
      var i := Lowest(mask);
      LowestBit(mask);
      BitBelow(mask, MAX_FRAME_INDEX + 1, i);
      assert i in BitSet(mask);
    } else {
      forall i: nat ensures !Bit(0, i) { NoBits(i); }
    }
  }
}
