/** The size classes of the interrupt-safe pool: 16, 32, 64 and 128 bytes, and the loop that
    turns a byte count into a class number. */
module SizeClasses {
  import opened Common

  const MIN_SIZE: nat := 16
  const GROUP_COUNT: nat := 4
  const GROUP_MAX: nat := 16
  const RECLAIM_MAX: nat := 4096

  // size_t is 64 bits wide.
  const SIZE_LIMIT: nat := 0x1_0000_0000_0000_0000
  const HALF_LIMIT: nat := 0x8000_0000_0000_0000

  /** Block size of class n, without any bound on n. */
  function Capacity(n: nat): nat {
    if n == 0 then MIN_SIZE else 2 * Capacity(n - 1)
  }

  /** The four groups hold blocks of 16, 32, 64 and 128 bytes; class n of 16 * 2^n. */
  lemma {:induction false} CapacityInBytes(n: nat)
    ensures Capacity(0) == 16 && Capacity(1) == 32 && Capacity(2) == 64 && Capacity(3) == 128
    ensures Capacity(n) == 16 * Pow2(n)
  {
    if n > 0 {
      CapacityInBytes(n - 1);
    }
  }

  /** n is the smallest class whose blocks hold `size` bytes. */
  ghost predicate IsClassOf(size: nat, n: nat) {
    Capacity(n) >= size && forall m: nat :: m < n ==> Capacity(m) < size
  }

  lemma {:induction false} CapacityGrows(m: nat, n: nat)
    requires m <= n
    ensures Capacity(m) <= Capacity(n)
    ensures m < n ==> 2 * Capacity(m) <= Capacity(n)
    ensures MIN_SIZE + m <= Capacity(m)
    decreases n
  {
    if m < n {
      CapacityGrows(m, n - 1);
    } else if m > 0 {
      CapacityGrows(m - 1, m - 1);
    }
  }

  /** The class number as a function, for any size at all. */
  function ClassOf(size: nat): (n: nat)
    ensures IsClassOf(size, n)
  {
    CapacityGrows(size, size);
    ClassFrom(size, 0)
  }

  function ClassFrom(size: nat, n: nat): (r: nat)
    requires n <= size && Capacity(size) >= size
    requires forall m: nat :: m < n ==> Capacity(m) < size
    ensures IsClassOf(size, r)
    decreases size - n
  {
    if Capacity(n) >= size then n else ClassFrom(size, n + 1)
  }

  lemma ClassIsUnique(size: nat, n: nat)
    requires IsClassOf(size, n)
    ensures n == ClassOf(size)
  {
    var m := ClassOf(size);
    if m < n {
      assert false;
    }
  }

  /** A size belongs to class c or a higher one exactly when class c - 1 is too small. */
  lemma ClassAtLeast(size: nat, c: nat)
    ensures c <= ClassOf(size) <==> (c == 0 || Capacity(c - 1) < size)
  {
    var n := ClassOf(size);
    if c > 0 {
      if c <= n {
        assert Capacity(c - 1) < size;
      } else {
        CapacityGrows(n, c - 1);
      }
    }
  }

  // -- The doubling loop in 64-bit arithmetic --

  /** The value of the loop variable after n doublings in a 64-bit word. */
  function Doubled(n: nat): nat {
    if n == 0 then MIN_SIZE else Doubled(n - 1) * 2 % SIZE_LIMIT
  }

  lemma {:induction false} CapacityAt59()
    ensures Capacity(59) == HALF_LIMIT
  {
    assert Capacity(10) == 0x4000;
    assert Capacity(20) == 0x100_0000;
    assert Capacity(30) == 0x4_0000_0000;
    assert Capacity(40) == 0x1000_0000_0000;
    assert Capacity(50) == 0x40_0000_0000_0000;
    assert Capacity(59) == HALF_LIMIT;
  }

  lemma BelowTop(n: nat)
    requires n <= 59
    ensures 0 < Capacity(n) <= HALF_LIMIT && (n == 59 <==> Capacity(n) == HALF_LIMIT)
  {
    CapacityAt59();
    CapacityGrows(n, 59);
  }

  lemma Wrap(x: nat)
    requires x <= HALF_LIMIT
    ensures x * 2 % SIZE_LIMIT == if x == HALF_LIMIT then 0 else x * 2
  {
  }

  lemma {:induction false} DoubledBelow60(n: nat)
    requires n <= 59
    ensures Doubled(n) == Capacity(n) <= HALF_LIMIT
  {
    BelowTop(n);
    if n > 0 {
      DoubledBelow60(n - 1);
      Wrap(Capacity(n - 1));
    }
  }

  lemma {:induction false} DoubledFrom60(n: nat)
    requires n >= 60
    ensures Doubled(n) == 0
    decreases n
  {
    if n > 60 {
      DoubledFrom60(n - 1);
    } else {
      DoubledBelow60(n - 1);
      BelowTop(n - 1);
    }
    Wrap(Doubled(n - 1));
  }

  /** The source's loop reaches a large enough block size exactly for sizes up to 2^63; beyond
      that the doubling wraps to zero and the loop never ends. */
  lemma LoopEndsIff(size: nat)
    requires size < SIZE_LIMIT
    ensures (exists n: nat :: Doubled(n) >= size) <==> size <= HALF_LIMIT
  {
    if size <= HALF_LIMIT {
      DoubledBelow60(59);
      CapacityAt59();
      assert Doubled(59) >= size;
    } else {
      forall n: nat ensures Doubled(n) < size {
        if n <= 59 { DoubledBelow60(n); } else { DoubledFrom60(n); }
      }
    }
  }

  /** The input that shows it: one byte more than 2^63. */
  lemma LoopRunsForEverAt(n: nat)
    ensures Doubled(n) < HALF_LIMIT + 1 < SIZE_LIMIT
  {
    if n <= 59 { DoubledBelow60(n); } else { DoubledFrom60(n); }
  }

  /** The loop of IntrSafePool::Alloc. None where the source would go on for ever: the group size
      has wrapped to zero and stays there. */
  method FindClass(size: nat) returns (n: Option<nat>)
    requires size < SIZE_LIMIT
    ensures n.None? <==> forall k: nat :: Doubled(k) < size
    ensures n.None? <==> size > HALF_LIMIT
    ensures n.Some? ==> IsClassOf(size, n.value)
  {
    LoopEndsIff(size);
    var i := 0;
    var groupSize := MIN_SIZE;
    while groupSize < size
      invariant groupSize == Doubled(i)
      invariant if groupSize == 0 then size > HALF_LIMIT else i <= 59 && groupSize == Capacity(i)
      invariant forall m: nat :: m < i ==> Capacity(m) < size
      decreases if groupSize == 0 then 0 else 60 - i
    {
      if groupSize == 0 {
        return None;
      }
      OneDoubling(i);
      i := i + 1;
      groupSize := groupSize * 2 % SIZE_LIMIT;
    }
    n := Some(i);
  }

  lemma OneDoubling(i: nat)
    requires i <= 59
    ensures Doubled(i) == Capacity(i) && Doubled(i + 1) == Doubled(i) * 2 % SIZE_LIMIT
    ensures if Doubled(i + 1) == 0 then Capacity(i) == HALF_LIMIT else i + 1 <= 59 && Doubled(i + 1) == Capacity(i + 1)
  {
    DoubledBelow60(i);
    BelowTop(i);
    Wrap(Doubled(i));
    if i < 59 {
      DoubledBelow60(i + 1);
      BelowTop(i + 1);
    }
  }

  // -- The disabled formula --

  /** std::bit_width. */
  function BitWidth(x: nat): nat {
    if x == 0 then 0 else 1 + BitWidth(x / 2)
  }

  function Pow2(k: nat): nat {
    if k == 0 then 1 else 2 * Pow2(k - 1)
  }

  lemma {:induction false} BitWidthOf(x: nat, k: nat)
    requires Pow2(k) <= x < 2 * Pow2(k)
    ensures BitWidth(x) == k + 1
    decreases k
  {
    if k > 0 {
      BitWidthOf(x / 2, k - 1);
    } else {
      assert x == 1;
    }
  }

  lemma {:induction false} CapacityIsPow2(n: nat)
    ensures Capacity(n) == Pow2(n + 4)
  {
    if n > 0 {
      CapacityIsPow2(n - 1);
    } else {
      assert Pow2(2) == 4;
    }
  }

  /** The commented-out formula gives the class the loop finds, for every size. */
  lemma BitWidthFormula(size: nat)
    ensures ClassOf(size) == if size > MIN_SIZE then BitWidth(size - 1) - 4 else 0
  {
    var n := ClassOf(size);
    if size > MIN_SIZE {
      assert Capacity(0) == MIN_SIZE;
      assert n > 0;
      assert Capacity(n - 1) < size;
      CapacityIsPow2(n);
      CapacityIsPow2(n - 1);
      BitWidthOf(size - 1, n + 3);
    } else {
      ClassAtLeast(size, 1);
    }
  }
}
