/**
 Integer facts the models share: truncating halves, and products, quotients and remainders.

 Products of two variables are written Times and remainders of a running counter Slot, both defined by
 repeated addition; TimesIsProduct and SlotIsRemainder tie them to the operators. Facts about them are
 proved by induction, without the solver having to multiply or divide variables.
 */
module IntegerArithmetic {

  function Min(a: int, b: int): int { if a < b then a else b }

  function Max(a: int, b: int): int { if a > b then a else b }

  /** Division by two as C does it: toward zero. */
  function CHalf(x: int): int { if x >= 0 then x / 2 else -((-x) / 2) }

  // ---- Products ----

  /** k added up n times, for negative n subtracted. */
  function Times(n: int, k: int): int
    decreases if n < 0 then -n else n
  {
    if n == 0 then 0 else if n > 0 then Times(n - 1, k) + k else Times(n + 1, k) - k
  }

  lemma OneMoreRow(n: int, k: int)
    ensures (n + 1) * k == n * k + k
  {
  }

  lemma {:induction false} TimesIsProduct(n: int, k: int)
    ensures Times(n, k) == n * k
    decreases if n < 0 then -n else n
  {
    if n > 0 {
      TimesIsProduct(n - 1, k);
      OneMoreRow(n - 1, k);
    } else if n < 0 {
      TimesIsProduct(n + 1, k);
      OneMoreRow(n, k);
    }
  }

  lemma TimesStep(n: int, k: int)
    ensures Times(n + 1, k) == Times(n, k) + k
  {
  }

  lemma {:induction false} TimesAdd(a: int, b: int, k: int)
    ensures Times(a + b, k) == Times(a, k) + Times(b, k)
    decreases if a < 0 then -a else a
  {
    if a > 0 {
      TimesAdd(a - 1, b, k);
      TimesStep(a - 1 + b, k);
    } else if a < 0 {
      TimesAdd(a + 1, b, k);
      TimesStep(a + b, k);
    }
  }

  lemma {:induction false} TimesNonNegative(n: int, k: int)
    requires 0 <= n && 0 <= k
    ensures 0 <= Times(n, k)
  {
    if n > 0 {
      TimesNonNegative(n - 1, k);
    }
  }

  lemma {:induction false} TimesMonotonic(a: int, b: int, k: int)
    requires a <= b && 0 <= k
    ensures Times(a, k) <= Times(b, k)
    decreases b - a
  {
    if a < b {
      TimesMonotonic(a, b - 1, k);
      TimesStep(b - 1, k);
    }
  }

  lemma {:induction false} TimesAssociates(a: int, b: int, k: int)
    ensures Times(Times(a, b), k) == Times(a, Times(b, k))
    decreases if a < 0 then -a else a
  {
    if a > 0 {
      TimesAssociates(a - 1, b, k);
      TimesAdd(Times(a - 1, b), b, k);
    } else if a < 0 {
      TimesAssociates(a + 1, b, k);
      TimesAdd(Times(a + 1, b), 0 - b, k);
      TimesAdd(b, 0 - b, k);
    }
  }

  /** Row y, column x of rows of w lies before row h. */
  lemma RowMajor(y: int, x: int, h: int, w: int)
    requires 0 <= y < h && 0 <= x < w
    ensures 0 <= Times(y, w) + x < Times(h, w)
  {
    TimesNonNegative(y, w);
    TimesStep(y, w);
    TimesMonotonic(y + 1, h, w);
  }

  /** A flat position determines its row. */
  lemma RowsDoNotOverlap(y: int, x: int, y': int, x': int, w: int)
    requires 0 <= x < w && 0 <= x' < w && y < y'
    ensures Times(y, w) + x < Times(y', w) + x'
  {
    TimesStep(y, w);
    TimesMonotonic(y + 1, y', w);
  }

  // ---- Quotients ----

  lemma QuotientBounds(m: int, d: int)
    requires 0 < d
    ensures Times(m / d, d) <= m < Times(m / d, d) + d
  {
    TimesIsProduct(m / d, d);
  }

  lemma AtMostQuotient(m: int, d: int, k: int)
    requires 0 < d
    ensures k <= m / d <==> Times(k, d) <= m
  {
    QuotientBounds(m, d);
    if k <= m / d {
      TimesMonotonic(k, m / d, d);
    } else {
      TimesStep(m / d, d);
      TimesMonotonic(m / d + 1, k, d);
    }
  }

  lemma QuotientIs(m: int, d: int, q: int)
    requires 0 < d && Times(q, d) <= m < Times(q, d) + d
    ensures m / d == q
  {
    TimesStep(q, d);
    AtMostQuotient(m, d, q);
    AtMostQuotient(m, d, q + 1);
  }

  // ---- Remainders ----

  /** x reduced to 0..n-1 by whole turns of n. */
  function Slot(x: int, n: nat): (r: int)
    requires 0 < n
    ensures 0 <= r < n
    decreases if x < 0 then n - x else x
  {
    if x < 0 then Slot(x + n, n) else if x < n then x else Slot(x - n, n)
  }

  lemma RemainderOfTurn(x: int, n: nat)
    requires 0 < n
    ensures (x + n) % n == x % n
  {
    QuotientBounds(x, n);
    TimesIsProduct(x / n, n);
    TimesStep(x / n, n);
    QuotientIs(x + n, n, x / n + 1);
    TimesIsProduct(x / n + 1, n);
  }

  lemma {:induction false} SlotIsRemainder(x: int, n: nat)
    requires 0 < n
    ensures Slot(x, n) == x % n
    decreases if x < 0 then n - x else x
  {
    if x < 0 {
      SlotIsRemainder(x + n, n);
      RemainderOfTurn(x, n);
    } else if n <= x {
      SlotIsRemainder(x - n, n);
      RemainderOfTurn(x - n, n);
    } else {
      QuotientIs(x, n, 0);
    }
  }

  /** A turn more leaves the slot. */
  lemma FullTurn(x: int, n: nat)
    requires 0 < n
    ensures Slot(x + n, n) == Slot(x, n)
  {
  }

  /** Reducing before a step does not change where it leads. */
  lemma {:induction false} SlotAbsorbs(a: int, k: int, n: nat)
    requires 0 < n
    ensures Slot(a + k, n) == Slot(Slot(a, n) + k, n)
    decreases if a < 0 then n - a else a
  {
    if a < 0 {
      SlotAbsorbs(a + n, k, n);
      FullTurn(a + k, n);
    } else if n <= a {
      SlotAbsorbs(a - n, k, n);
      FullTurn(a - n + k, n);
    }
  }

  /** Slots of congruent counters stay equal when both move alike. */
  lemma SlotShift(a: int, b: int, k: int, n: nat)
    requires 0 < n && Slot(a, n) == Slot(b, n)
    ensures Slot(a + k, n) == Slot(b + k, n)
  {
    SlotAbsorbs(a, k, n);
    SlotAbsorbs(b, k, n);
  }

  /** The slot after p, as the hardware counts. */
  lemma NextSlot(p: int, n: nat)
    requires 0 <= p < n
    ensures (p + 1) % n == Slot(p + 1, n)
  {
    SlotIsRemainder(p + 1, n);
  }
}
