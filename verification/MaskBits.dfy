/**
 The bit layer of the scheduler: `wake_mask`, `alive_mask` and the masks handed to the futures
 chain are 32-bit words.  Bits 0..30 stand for tasks, bit 31 for "a tick is running".

 Every bit expression of the scheduler is shown here to compute a set operation, so that the
 other modules can reason about sets of task indices.
 */
module MaskBits {

  const TICKING: bv32 := 0x8000_0000
  const TASK_BITS: bv32 := 0x7FFF_FFFF
  const MAX_TASKS: nat := 31

  /** Bit `n` of `m`, read by shifting it down (see `HasIsMaskTest`). */
  predicate Has(m: bv32, n: nat) {
    if n == 0 then Odd(m) else Has(Half(m), n - 1)
  }

  predicate Odd(m: bv32) {
    m & 1 != 0
  }

  function Half(m: bv32): bv32 {
    m >> 1
  }

  function Double(m: bv32): bv32 {
    m << 1
  }

  predicate Hits(m: bv32, b: bv32) {
    m & b != 0
  }

  /** `1 << n`, by recursion on `n` (see `BitIsShift`). */
  function Bit(n: nat): bv32
    requires n < 32
  {
    if n == 0 then 1 else Double(Bit(n - 1))
  }

  /** The task indices whose bits are set. */
  ghost function Tasks(m: bv32): set<nat> {
    set n: nat | n < MAX_TASKS && Has(m, n)
  }

  ghost predicate Ticks(m: bv32) {
    Has(m, 31)
  }

  lemma BitValues()
    ensures Bit(0) == 0x1 && Bit(1) == 0x2 && Bit(2) == 0x4 && Bit(3) == 0x8
    ensures Bit(4) == 0x10 && Bit(5) == 0x20 && Bit(6) == 0x40 && Bit(7) == 0x80
    ensures Bit(8) == 0x100 && Bit(9) == 0x200 && Bit(10) == 0x400 && Bit(11) == 0x800
    ensures Bit(12) == 0x1000 && Bit(13) == 0x2000 && Bit(14) == 0x4000 && Bit(15) == 0x8000
    ensures Bit(16) == 0x10000 && Bit(17) == 0x20000 && Bit(18) == 0x40000 && Bit(19) == 0x80000
    ensures Bit(20) == 0x100000 && Bit(21) == 0x200000 && Bit(22) == 0x400000 && Bit(23) == 0x800000
    ensures Bit(24) == 0x1000000 && Bit(25) == 0x2000000 && Bit(26) == 0x4000000 && Bit(27) == 0x8000000
    ensures Bit(28) == 0x10000000 && Bit(29) == 0x20000000 && Bit(30) == 0x40000000 && Bit(31) == 0x80000000
  {
  }

  lemma BitIsShift(n: nat)
    requires n < 32
    ensures Bit(n) == 1 << n
  {
    BitValues();
    if n < 4 {
    } else if n < 8 {
    } else if n < 12 {
    } else if n < 16 {
    } else if n < 20 {
    } else if n < 24 {
    } else if n < 28 {
    }
  }

  lemma TopBitClear(n: nat)
    requires n < MAX_TASKS
    ensures Bit(n) & TICKING == 0
  {
    BitValues();
  }

  lemma ShiftBack(b: bv32)
    requires b & TICKING == 0
    ensures Half(Double(b)) == b
    ensures !Odd(Double(b))
  {
  }

  lemma ShiftTest(m: bv32, b: bv32)
    requires b & TICKING == 0
    ensures Hits(m, Double(b)) == Hits(Half(m), b)
  {
  }

  /** The code's test `mask & (1 << n) != 0` reads bit `n`. */
  lemma {:induction false} HasIsMaskTest(m: bv32, n: nat)
    requires n < 32
    ensures Hits(m, Bit(n)) <==> Has(m, n)
    decreases n
  {
    if n > 0 {
      TopBitClear(n - 1);
      ShiftTest(m, Bit(n - 1));
      HasIsMaskTest(Half(m), n - 1);
    }
  }

  /** `1 << n` is the word whose only bit is `n`. */
  lemma {:induction false} OneHot(n: nat, k: nat)
    requires n < 32
    ensures Has(Bit(n), k) <==> n == k
    decreases n
  {
    if n == 0 {
      if k > 0 {
        ZeroHasNothing(k - 1);
      }
    } else {
      TopBitClear(n - 1);
      ShiftBack(Bit(n - 1));
      if k > 0 {
        OneHot(n - 1, k - 1);
      }
    }
  }

  lemma {:induction false} ZeroHasNothing(k: nat)
    ensures !Has(0, k)
    decreases k
  {
    if k > 0 {
      ZeroHasNothing(k - 1);
    }
  }

  lemma ShiftOr(a: bv32, b: bv32)
    ensures Half(a | b) == Half(a) | Half(b)
    ensures Odd(a | b) == (Odd(a) || Odd(b))
  {
  }

  lemma ShiftAnd(a: bv32, b: bv32)
    ensures Half(a & b) == Half(a) & Half(b)
    ensures Odd(a & b) == (Odd(a) && Odd(b))
  {
  }

  lemma {:induction false} HasOr(a: bv32, b: bv32, k: nat)
    ensures Has(a | b, k) <==> Has(a, k) || Has(b, k)
    decreases k
  {
    ShiftOr(a, b);
    if k > 0 {
      HasOr(Half(a), Half(b), k - 1);
    }
  }

  lemma {:induction false} HasAnd(a: bv32, b: bv32, k: nat)
    ensures Has(a & b, k) <==> Has(a, k) && Has(b, k)
    decreases k
  {
    ShiftAnd(a, b);
    if k > 0 {
      HasAnd(Half(a), Half(b), k - 1);
    }
  }

  /** Only the low `w` bits of `a` can be set. */
  ghost predicate Fits(a: bv32, w: nat) {
    if w == 0 then a == 0 else Fits(Half(a), w - 1)
  }

  lemma {:induction false} SubmaskFits(a: bv32, m: bv32, w: nat)
    requires a & m == a && Fits(m, w)
    ensures Fits(a, w)
    decreases w
  {
    if w > 0 {
      ShiftAnd(a, m);
      SubmaskFits(Half(a), Half(m), w - 1);
    }
  }

  lemma SameHalves(a: bv32, b: bv32)
    requires Half(a) == Half(b) && Odd(a) == Odd(b)
    ensures a == b
  {
  }

  ghost predicate Agree(a: bv32, b: bv32, w: nat) {
    forall k: nat :: k < w ==> (Has(a, k) <==> Has(b, k))
  }

  lemma AgreeAbove(a: bv32, b: bv32, w: nat)
    requires w > 0 && Agree(a, b, w)
    ensures Odd(a) == Odd(b)
    ensures Agree(Half(a), Half(b), w - 1)
  {
    assert Has(a, 0) <==> Has(b, 0);
    forall k: nat | k < w - 1 ensures Has(Half(a), k) <==> Has(Half(b), k) {
      assert Has(a, k + 1) <==> Has(b, k + 1);
    }
  }

  lemma {:induction false} Extensionality(a: bv32, b: bv32, w: nat)
    requires Fits(a, w) && Fits(b, w)
    requires Agree(a, b, w)
    ensures a == b
    decreases w
  {
    if w > 0 {
      AgreeAbove(a, b, w);
      Extensionality(Half(a), Half(b), w - 1);
      SameHalves(a, b);
    }
  }

  lemma AllOnesFit()
    ensures Fits(0xFFFF_FFFF, 32)
  {
    assert Fits(0x3, 2); assert Fits(0xF, 4); assert Fits(0x3F, 6); assert Fits(0xFF, 8);
    assert Fits(0x3FF, 10); assert Fits(0xFFF, 12); assert Fits(0x3FFF, 14); assert Fits(0xFFFF, 16);
    assert Fits(0x3FFFF, 18); assert Fits(0xFFFFF, 20); assert Fits(0x3FFFFF, 22); assert Fits(0xFFFFFF, 24);
    assert Fits(0x3FFFFFF, 26); assert Fits(0xFFFFFFF, 28); assert Fits(0x3FFFFFFF, 30); assert Fits(0xFFFFFFFF, 32);
  }

  /** A word is determined by its task set and its ticking flag. */
  lemma WordExtensionality(a: bv32, b: bv32)
    ensures a == b <==> Tasks(a) == Tasks(b) && Ticks(a) == Ticks(b)
  {
    if Tasks(a) == Tasks(b) && Ticks(a) == Ticks(b) {
      forall k: nat | k < 32 ensures Has(a, k) <==> Has(b, k) {
        assert k < MAX_TASKS ==> (k in Tasks(a) <==> k in Tasks(b));
      }
      AllOnesFit();
      SubmaskFits(a, 0xFFFF_FFFF, 32);
      SubmaskFits(b, 0xFFFF_FFFF, 32);
      Extensionality(a, b, 32);
    }
  }

  lemma AddedBit(m: bv32, b: bv32, r: bv32, n: nat)
    requires n < MAX_TASKS && r == m | b
    requires forall k: nat :: Has(b, k) <==> k == n
    ensures Tasks(r) == Tasks(m) + {n} && Ticks(r) == Ticks(m)
  {
    forall k: nat ensures Has(r, k) <==> Has(m, k) || Has(b, k) {
      HasOr(m, b, k);
    }
  }

  /**
   `old | (1 << n)` adds task `n` and leaves the ticking flag alone; it equals `old`, which is the test
   "bit already set" in `wake`, exactly if the task is pending already.
   */
  lemma OrAddsTask(m: bv32, n: nat, r: bv32)
    requires n < MAX_TASKS && r == m | Bit(n)
    ensures Tasks(r) == Tasks(m) + {n} && Ticks(r) == Ticks(m)
    ensures if n in Tasks(m) then r == m else r != m
  {
    AddedBit(m, Bit(n), r, n) by {
      forall k: nat ensures Has(Bit(n), k) <==> k == n {
        OneHot(n, k);
      }
    }
    WordExtensionality(r, m);
  }

  /** The two constants stored by `tick`, the low-31 mask, and the all-ones mask of the first poll. */
  lemma ConstantWords()
    ensures Tasks(TICKING) == {} && Ticks(TICKING)
    ensures Tasks(0) == {} && !Ticks(0)
    ensures !Ticks(TASK_BITS)
    ensures forall n: nat :: n < MAX_TASKS ==> n in Tasks(TASK_BITS)
    ensures forall n: nat :: n < MAX_TASKS ==> n in Tasks(0xFFFF_FFFF)
  {
    BitValues();
    forall k: nat ensures !Has(0, k) && (Has(TICKING, k) <==> k == 31) {
      ZeroHasNothing(k);
      OneHot(31, k);
    }
    forall k: nat | k < 32
      ensures Has(0xFFFF_FFFF, k) && (Has(TASK_BITS, k) <==> k < MAX_TASKS)
    {
      OneHot(k, k);
      HasIsMaskTest(0xFFFF_FFFF, k);
      assert TASK_BITS | TICKING == 0xFFFF_FFFF && TASK_BITS & TICKING == 0;
      HasOr(TASK_BITS, TICKING, k);
      HasAnd(TASK_BITS, TICKING, k);
      ZeroHasNothing(k);
    }
  }

  /** The test `mask & (1 << n) != 0`. */
  method IsSelected(mask: bv32, n: nat) returns (selected: bool)
    requires n < MAX_TASKS
    ensures selected <==> n in Tasks(mask)
  {
    HasIsMaskTest(mask, n);
    selected := mask & Bit(n) != 0;
  }

  /** The test `m & 0x80000000 != 0`. */
  method IsTicking(m: bv32) returns (ticking: bool)
    ensures ticking <==> Ticks(m)
  {
    BitValues();
    HasIsMaskTest(m, 31);
    ticking := m & TICKING != 0;
  }

  /** The expression `m | (1 << n)`. */
  method WithTask(m: bv32, n: nat) returns (r: bv32)
    requires n < MAX_TASKS
    ensures Tasks(r) == Tasks(m) + {n} && Ticks(r) == Ticks(m)
    ensures if n in Tasks(m) then r == m else r != m
  {
    r := m | Bit(n);
    OrAddsTask(m, n, r);
  }

  lemma CommonBits(a: bv32, w: bv32, r: bv32)
    requires r == a & w
    ensures Tasks(r) == Tasks(a) * Tasks(w)
    ensures Ticks(r) == (Ticks(a) && Ticks(w))
  {
    forall k: nat ensures Has(r, k) <==> Has(a, k) && Has(w, k) {
      HasAnd(a, w, k);
    }
  }

  /** `alive_mask & old_word & 0x7FFFFFFF` is the set of live tasks that were woken. */
  lemma AndIntersects(a: bv32, w: bv32)
    ensures Tasks(a & w & TASK_BITS) == Tasks(a) * Tasks(w)
    ensures !Ticks(a & w & TASK_BITS)
  {
    ConstantWords();
    CommonBits(a, w, a & w);
    CommonBits(a & w, TASK_BITS, a & w & TASK_BITS);
  }

  /** `mask != 0` in `tick` is the test "some live task was woken". */
  lemma ZeroIsEmpty(m: bv32)
    requires !Ticks(m)
    ensures m == 0 <==> Tasks(m) == {}
  {
    ConstantWords();
    WordExtensionality(m, 0);
  }

  /** The expression `alive_mask & old_word & 0x7FFFFFFF`, and the test whether it is zero. */
  method Claimed(alive: bv32, word: bv32) returns (mask: bv32, any: bool)
    ensures Tasks(mask) == Tasks(alive) * Tasks(word)
    ensures any <==> Tasks(mask) != {}
  {
    AndIntersects(alive, word);
    mask := alive & word & TASK_BITS;
    ZeroIsEmpty(mask);
    any := mask != 0;
  }
}
