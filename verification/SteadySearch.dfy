/**
 When the DQS-enable search finds the middle of a steady read window, and when it misses: the condition is one on the
 interval alone, and exact for every interval at least as long as a phase tap.
 */
module SteadySearch {
  import opened DqsEnable
  import opened IntegerArithmetic
  import opened SteadyReads

  // ---- The condition ----

  /** The first of the taps j to n at a place that reaches lo, or a phase tap past the place. */
  function BeginTap(s: EnableSearch, base: int, lo: int, n: nat, j: nat): int
    decreases n + 1 - j
  {
    if n < j then base + s.opa else if lo <= base + s.Chain(j) then base + s.Chain(j) else BeginTap(s, base, lo, n, j + 1)
  }

  /** The last of the taps from j on that does not pass hi. */
  function EndTap(s: EnableSearch, base: int, hi: int, j: nat): int
    decreases s.delayMax - j
  {
    if s.delayMax <= j || hi < base + s.Chain(j + 1) then base + s.Chain(j) else EndTap(s, base, hi, j + 1)
  }

  /**
   An interval between two usable phases of different slots is missed if no delay tap reaches it, or the middle of the taps in it
   falls into the next slot, where only phase 1 can be programmed.
   */
  predicate GapFails(s: EnableSearch, n: nat, k: int, lo: int, hi: int)
  {
    var base := Place(s, k, s.phaseMax);
    || base + s.Chain(n) < lo
    || Times(k + 1, SlotDelay(s)) < (BeginTap(s, base, lo, n, 0) + EndTap(s, base, hi, 0)) / 2
  }

  /** Phase p of slot t is the first usable one in the interval. */
  predicate FirstPlace(s: EnableSearch, t: int, p: int, lo: int, hi: int)
  {
    1 <= p <= s.phaseMax && Place(s, t, p) - StepTo(s, p) < lo <= Place(s, t, p) <= hi
  }

  /** Two delay taps are not much longer than a phase tap, and the interval ends between. */
  predicate Coarse(s: EnableSearch, n: nat, base: int, lo: int, hi: int)
  {
    n == 1 && lo <= base + s.dchain && hi < base + 2 * s.dchain && s.dchain + 2 <= s.opa
  }

  /**
   An interval whose first usable phase is p of slot t is missed: from phase 1, if it holds no phase 1 with as many taps as reach
   a phase tap; before the last phase, if it holds no other phase; from the last phase, if it ends before the next slot's
   phase 1 and its middle falls into that slot, or rounding leads out of it.
   */
  predicate FailsFrom(s: EnableSearch, n: nat, t: int, p: int, lo: int, hi: int)
  {
    var x := Place(s, t, p);
    if p == 1 then
      s.phaseMax != 2 && x - SlotDelay(s) + s.Chain(n + 1) < lo && hi < x + s.Chain(n + 1)
    else if p < s.phaseMax then
      hi < x + s.opa
    else
      && hi < x + 2 * s.opa
      && (Times(t + 1, SlotDelay(s)) < (BeginTap(s, x - s.opa, lo, n, 0) + EndTap(s, x, hi, 0)) / 2 || Coarse(s, n, x - s.opa, lo, hi))
  }

  ghost predicate Missed(s: EnableSearch, n: nat, lo: int, hi: int)
  {
    || (exists k: int :: GapAt(s, k, lo, hi) && GapFails(s, n, k, lo, hi))
    || (exists t: int, p: int :: FirstPlace(s, t, p, lo, hi) && FailsFrom(s, n, t, p, lo, hi))
  }

  /** The first usable phase in the interval is unique, and an interval in a gap has none. */
  lemma FirstPlaceIsUnique(s: EnableSearch, t: int, p: int, k: int, q: int, lo: int, hi: int)
    requires Geometry(s) && FirstPlace(s, t, p, lo, hi) && FirstPlace(s, k, q, lo, hi)
    ensures t == k && p == q
  {
    if t < k || (t == k && p < q) { PlaceOrder(s, t, p, k, q); }
    if k < t || (t == k && q < p) { PlaceOrder(s, k, q, t, p); }
  }

  lemma GapHasNoPlace(s: EnableSearch, k: int, t: int, p: int, lo: int, hi: int)
    requires Geometry(s) && GapAt(s, k, lo, hi)
    ensures !FirstPlace(s, t, p, lo, hi)
  {
    if FirstPlace(s, t, p, lo, hi) {
      if k < t { PlacesInOrder(s, k + 1, 1, t, p); } else { PlacesInOrder(s, t, p, k, s.phaseMax); }
    }
  }

  lemma GapIsUnique(s: EnableSearch, k: int, m: int, lo: int, hi: int)
    requires Geometry(s) && GapAt(s, k, lo, hi) && GapAt(s, m, lo, hi) && lo <= hi
    ensures k == m
  {
    if k < m { PlacesInOrder(s, k + 1, 1, m, s.phaseMax); }
    if m < k { PlacesInOrder(s, m + 1, 1, k, s.phaseMax); }
  }

  lemma MissedFromPlace(s: EnableSearch, n: nat, t: int, p: int, lo: int, hi: int)
    requires Geometry(s) && FirstPlace(s, t, p, lo, hi)
    ensures Missed(s, n, lo, hi) <==> FailsFrom(s, n, t, p, lo, hi)
  {
    hide FailsFrom, FirstPlace, GapAt, GapFails;
    if Missed(s, n, lo, hi) {
      if k: int :| GapAt(s, k, lo, hi) && GapFails(s, n, k, lo, hi) {
        GapHasNoPlace(s, k, t, p, lo, hi);
      } else {
        var k: int, q: int :| FirstPlace(s, k, q, lo, hi) && FailsFrom(s, n, k, q, lo, hi);
        FirstPlaceIsUnique(s, t, p, k, q, lo, hi);
      }
    }
  }

  lemma MissedFromGap(s: EnableSearch, n: nat, m: int, lo: int, hi: int)
    requires Geometry(s) && GapAt(s, m, lo, hi) && lo <= hi
    ensures Missed(s, n, lo, hi) <==> GapFails(s, n, m, lo, hi)
  {
    hide FailsFrom, FirstPlace, GapAt, GapFails;
    if Missed(s, n, lo, hi) {
      if k: int :| GapAt(s, k, lo, hi) && GapFails(s, n, k, lo, hi) {
        GapIsUnique(s, k, m, lo, hi);
      } else {
        var t: int, p: int :| FirstPlace(s, t, p, lo, hi) && FailsFrom(s, n, t, p, lo, hi);
        GapHasNoPlace(s, m, t, p, lo, hi);
      }
    }
  }

  // ---- Copies ----

  lemma PlaceMoves(s: EnableSearch, k: int, p: int, j: int)
    ensures Place(s, k + Times(j, s.size), p) == Place(s, k, p) + Times(j, Turn(s))
    ensures Times(k + Times(j, s.size), SlotDelay(s)) == Times(k, SlotDelay(s)) + Times(j, Turn(s))
  {
    TimesAdd(k, Times(j, s.size), SlotDelay(s));
    TimesAssociates(j, s.size, SlotDelay(s));
  }

  lemma {:induction false} BeginTapMoves(s: EnableSearch, base: int, lo: int, n: nat, j: nat, c: int)
    ensures BeginTap(s, base + c, lo + c, n, j) == BeginTap(s, base, lo, n, j) + c
    decreases n + 1 - j
  {
    if j <= n { BeginTapMoves(s, base, lo, n, j + 1, c); }
  }

  lemma {:induction false} EndTapMoves(s: EnableSearch, base: int, hi: int, j: nat, c: int)
    ensures EndTap(s, base + c, hi + c, j) == EndTap(s, base, hi, j) + c
    decreases s.delayMax - j
  {
    if j < s.delayMax { EndTapMoves(s, base, hi, j + 1, c); }
  }

  lemma GapMoves(s: EnableSearch, n: nat, k: int, j: int, lo: int, hi: int)
    ensures var c, m := Times(j, Turn(s)), k + Times(j, s.size);
      && (GapAt(s, m, lo + c, hi + c) <==> GapAt(s, k, lo, hi))
      && (GapFails(s, n, m, lo + c, hi + c) <==> GapFails(s, n, k, lo, hi))
  {
    var c, m := Times(j, Turn(s)), k + Times(j, s.size);
    PlaceMoves(s, k, s.phaseMax, j);
    PlaceMoves(s, k + 1, 1, j);
    BeginTapMoves(s, Place(s, k, s.phaseMax), lo, n, 0, c);
    EndTapMoves(s, Place(s, k, s.phaseMax), hi, 0, c);
  }

  lemma PlaceFailsAlike(s: EnableSearch, n: nat, t: int, p: int, j: int, lo: int, hi: int)
    ensures var c, m := Times(j, Turn(s)), t + Times(j, s.size);
      && (FirstPlace(s, m, p, lo + c, hi + c) <==> FirstPlace(s, t, p, lo, hi))
      && (FailsFrom(s, n, m, p, lo + c, hi + c) <==> FailsFrom(s, n, t, p, lo, hi))
  {
    var c := Times(j, Turn(s));
    PlaceMoves(s, t, p, j);
    PlaceMoves(s, t + 1, p, j);
    BeginTapMoves(s, Place(s, t, p) - s.opa, lo, n, 0, c);
    EndTapMoves(s, Place(s, t, p), hi, 0, c);
  }

  /** Whether an interval is missed does not depend on the turn it is counted in. */
  lemma MissedMoves(s: EnableSearch, n: nat, lo: int, hi: int, j: int)
    requires Missed(s, n, lo, hi)
    ensures Missed(s, n, lo + Times(j, Turn(s)), hi + Times(j, Turn(s)))
  {
    hide FailsFrom, FirstPlace, GapAt, GapFails;
    if k: int :| GapAt(s, k, lo, hi) && GapFails(s, n, k, lo, hi) {
      GapMoves(s, n, k, j, lo, hi);
    } else {
      var t: int, p: int :| FirstPlace(s, t, p, lo, hi) && FailsFrom(s, n, t, p, lo, hi);
      PlaceFailsAlike(s, n, t, p, j, lo, hi);
    }
  }

  lemma MissedCopy(s: EnableSearch, n: nat, lo: int, hi: int, a: int, b: int)
    requires Copy(s, lo, hi, a, b)
    ensures Missed(s, n, lo, hi) <==> Missed(s, n, a, b)
  {
    hide Missed;
    var j: int :| lo == a + Times(j, Turn(s)) && hi == b + Times(j, Turn(s));
    TimesAdd(j, -j, Turn(s));
    if Missed(s, n, a, b) { MissedMoves(s, n, a, b, j); }
    if Missed(s, n, lo, hi) { MissedMoves(s, n, lo, hi, -j); }
  }

  lemma InGapCopy(s: EnableSearch, lo: int, hi: int, a: int, b: int)
    requires Copy(s, lo, hi, a, b) && InGap(s, lo, hi)
    ensures InGap(s, a, b)
  {
    hide GapAt;
    var j: int :| lo == a + Times(j, Turn(s)) && hi == b + Times(j, Turn(s));
    var k: int :| GapAt(s, k, lo, hi);
    TimesAdd(j, -j, Turn(s));
    GapMoves(s, 0, k, -j, lo, hi);
  }

  /** A run that is steady with an interval is steady with its copy. */
  lemma SteadyCopy(s: EnableSearch, tr: seq<Setting>, lo: int, hi: int, a: int, b: int)
    requires Steady(s, tr, a, b) && Copy(s, lo, hi, a, b)
    ensures Steady(s, tr, lo, hi) && Local(s, tr, lo, hi) && Copy(s, lo, hi, lo, hi)
  {
    LocalCopy(s, tr, a, b, lo, hi);
    assert lo == lo + Times(0, Turn(s)) && hi == hi + Times(0, Turn(s));
    var j: int :| lo == a + Times(j, Turn(s)) && hi == b + Times(j, Turn(s));
    forall n: nat | n < |tr| ensures Passing(s, tr[n], a, b) <==> Passing(s, tr[n], lo, hi) {
      var x := Pos(s, tr[n]);
      if Passing(s, tr[n], a, b) {
        var k: int :| a <= x + Times(k, Turn(s)) <= b;
        TimesAdd(k, j, Turn(s));
        assert lo <= x + Times(k + j, Turn(s)) <= hi;
      }
      if Passing(s, tr[n], lo, hi) {
        var k: int :| lo <= x + Times(k, Turn(s)) <= hi;
        TimesAdd(k - j, j, Turn(s));
        assert a <= x + Times(k - j, Turn(s)) <= b;
      }
    }
  }

  // ---- Taps ----

  lemma {:induction false} BeginTapIs(s: EnableSearch, base: int, lo: int, n: nat, j: nat, c: nat)
    requires 0 < s.dchain && j <= c <= n && lo <= base + s.Chain(c) && (0 < c ==> base + s.Chain(c - 1) < lo)
    ensures BeginTap(s, base, lo, n, j) == base + s.Chain(c)
    decreases c - j
  {
    if j < c {
      TimesMonotonic(j, c - 1, s.dchain);
      BeginTapIs(s, base, lo, n, j + 1, c);
    }
  }

  lemma {:induction false} NoBeginTap(s: EnableSearch, base: int, lo: int, n: nat, j: nat)
    requires 0 < s.dchain && base + s.Chain(n) < lo
    ensures BeginTap(s, base, lo, n, j) == base + s.opa
    decreases n + 1 - j
  {
    if j <= n {
      TimesMonotonic(j, n, s.dchain);
      NoBeginTap(s, base, lo, n, j + 1);
    }
  }

  /** The tap where an interval begins that some tap reaches. */
  lemma {:induction false} BeginTapAt(s: EnableSearch, base: int, lo: int, n: nat, j: nat) returns (c: nat)
    requires j <= n && lo <= base + s.Chain(n) && (0 < j ==> base + s.Chain(j - 1) < lo)
    ensures BeginTap(s, base, lo, n, j) == base + s.Chain(c) && j <= c <= n
    ensures lo <= base + s.Chain(c) && (0 < c ==> base + s.Chain(c - 1) < lo)
    decreases n - j
  {
    if lo <= base + s.Chain(j) { c := j; } else { c := BeginTapAt(s, base, lo, n, j + 1); }
  }

  lemma {:induction false} EndTapIs(s: EnableSearch, base: int, hi: int, j: nat, c: nat)
    requires 0 < s.dchain && j <= c <= s.delayMax && base + s.Chain(c) <= hi && (c < s.delayMax ==> hi < base + s.Chain(c + 1))
    ensures EndTap(s, base, hi, j) == base + s.Chain(c)
    decreases c - j
  {
    if j < c {
      TimesMonotonic(j + 1, c, s.dchain);
      EndTapIs(s, base, hi, j + 1, c);
    }
  }

  /** The tap where it ends. */
  lemma {:induction false} EndTapAt(s: EnableSearch, base: int, hi: int, j: nat) returns (c: nat)
    requires j <= s.delayMax && base + s.Chain(j) <= hi
    ensures EndTap(s, base, hi, j) == base + s.Chain(c) && j <= c <= s.delayMax
    ensures base + s.Chain(c) <= hi && (c < s.delayMax ==> hi < base + s.Chain(c + 1))
    decreases s.delayMax - j
  {
    if s.delayMax <= j || hi < base + s.Chain(j + 1) { c := j; } else { c := EndTapAt(s, base, hi, j + 1); }
  }

  lemma PerPhaseFits(s: EnableSearch, n: nat)
    requires Geometry(s) && s.PerPhase(n)
    ensures n < s.delayMax
  {
    if s.delayMax <= n { TimesMonotonic(s.delayMax, n, s.dchain); }
  }

  lemma PerPhaseIsUnique(s: EnableSearch, n: nat, k: nat)
    requires 0 < s.dchain && s.PerPhase(n) && s.PerPhase(k)
    ensures n == k
  {
    if n < k { TimesMonotonic(n + 1, k, s.dchain); }
    if k < n { TimesMonotonic(k + 1, n, s.dchain); }
  }

  // ---- The first step ----

  /** Two slots next to each other fail at phase 1, so the first step sees two failing reads. */
  lemma TwoSlotsFail(s: EnableSearch, a: int, b: int) returns (t: int)
    requires Geometry(s) && s.opa <= b - a && b + 2 * SlotDelay(s) < a + Turn(s)
    ensures !Passing(s, Setting(t, 1, 0), a, b) && !Passing(s, Setting(t + 1, 1, 0), a, b)
  {
    SlotIsLong(s);
    var q := (b - s.opa) / SlotDelay(s);
    QuotientBounds(b - s.opa, SlotDelay(s));
    t := q + 1;
    PosIs(s, Setting(t, 1, 0));
    PosIs(s, Setting(t + 1, 1, 0));
    TimesStep(q, SlotDelay(s));
    TimesStep(t, SlotDelay(s));
    s.AtStep(0);
    assert a == a + Times(0, Turn(s)) && b == b + Times(0, Turn(s));
    PassingNear(s, Setting(t, 1, 0), a, b, a, b);
    PassingNear(s, Setting(t + 1, 1, 0), a, b, a, b);
  }

  /** The slot among the first `size` ones that is a whole number of turns away. */
  lemma SameSlot(s: EnableSearch, tr: seq<Setting>, start: nat, t: int, a: int, b: int) returns (n: nat)
    requires Geometry(s) && Steady(s, tr, a, b) && |tr| == start + s.size && s.Stepped(tr, start, |tr|) && !Passing(s, Setting(t, 1, 0), a, b)
    ensures start <= n < |tr| && !s.verdict(n) && n - start == Slot(t, s.size)
  {
    var q := t / s.size;
    QuotientBounds(t, s.size);
    SlotIsRemainder(t, s.size);
    TimesIsProduct(q, s.size);
    n := start + (t - Times(q, s.size));
    assert tr[n] == Setting(t - Times(q, s.size), 1, 0);
    SlotRepeats(s, Setting(t, 1, 0), tr[n], q);
    if s.verdict(n) {
      TimesAdd(q, -q, Turn(s));
      PassingRepeats(s, tr[n], Setting(t, 1, 0), q, a, b);
    }
  }

  lemma TwoFailures(s: EnableSearch, start: nat, i: nat, j: nat, end: nat)
    requires start <= i < j < end && !s.verdict(i) && !s.verdict(j)
    ensures 2 <= s.Failures(start, end)
  {
    s.FailuresGrow(start, i + 1, j);
    s.FailuresGrow(start, j + 1, end);
  }

  /** The first step always finds its failing reads. */
  lemma FailuresAreSeen(s: EnableSearch, tr: seq<Setting>, e: Ending, start: nat, a: int, b: int)
    requires Geometry(s) && Steady(s, tr, a, b) && s.Ended(tr, e, start)
    requires s.opa <= b - a && b + 2 * SlotDelay(s) < a + Turn(s)
    ensures !e.NoFailure?
  {
    if e.NoFailure? {
      var t := TwoSlotsFail(s, a, b);
      var i := SameSlot(s, tr, start, t, a, b);
      var j := SameSlot(s, tr, start, t + 1, a, b);
      SlotIsLong(s);
      SlotsDiffer(s, t);
      if i < j { TwoFailures(s, start, i, j, |tr|); } else { TwoFailures(s, start, j, i, |tr|); }
    }
  }

  lemma SlotsDiffer(s: EnableSearch, t: int)
    requires Geometry(s)
    ensures s.size != 1 ==> Slot(t, s.size) != Slot(t + 1, s.size)
    ensures s.size == 1 ==> Turn(s) == SlotDelay(s)
  {
    TimesStep(0, SlotDelay(s));
    if s.size != 1 { SlotAbsorbs(t, 1, s.size); }
  }

  /** Where the remaining settings of a slot repeat: the push meets the centre's slot, so if all of it fails the centre does. */
  lemma PushMeets(s: EnableSearch, tr: seq<Setting>, from: nat, f: Setting, a: int, b: int)
    requires Geometry(s) && Steady(s, tr, a, b) && s.Pushed(tr, from, |tr|, f.phase, f.tap) && |tr| == from + s.size
    ensures !Passing(s, f, a, b)
  {
    var t := tr[from].turn;
    var q := (f.turn - t) / s.size;
    QuotientBounds(f.turn - t, s.size);
    var n := from + (f.turn - t - Times(q, s.size));
    assert tr[n] == Setting(f.turn - Times(q, s.size), f.phase, f.tap);
    SlotRepeats(s, f, tr[n], q);
    if Passing(s, f, a, b) {
      PassingRepeats(s, f, tr[n], -q, a, b);
    }
  }

  lemma SlotRepeats(s: EnableSearch, x: Setting, y: Setting, q: int)
    requires y == x.(turn := x.turn - Times(q, s.size))
    ensures Pos(s, y) == Pos(s, x) + Times(-q, Turn(s))
  {
    PosIs(s, x);
    PosIs(s, y);
    TimesAdd(y.turn, Times(q, s.size), SlotDelay(s));
    TimesAssociates(q, s.size, SlotDelay(s));
    TimesAdd(q, -q, Turn(s));
  }

  /** Where a setting lies in its slot. */
  function InSlot(s: EnableSearch, x: Setting): int { s.At(x.phase) + s.Chain(x.tap) }

  /** A setting whose place in its slot is not between first and last slot's distance to the interval is not in it. */
  lemma OutsideInSlot(s: EnableSearch, x: Setting, k: int, a: int, b: int)
    requires Geometry(s) && b - Times(k + 1, SlotDelay(s)) < InSlot(s, x) < a - Times(k, SlotDelay(s))
    ensures !Passing(s, x, a, b)
  {
    SlotIsLong(s);
    forall j: int ensures !(a <= Pos(s, x) + Times(j, Turn(s)) <= b) {
      var m := x.turn + Times(j, s.size);
      PosIs(s, x);
      TimesAssociates(j, s.size, SlotDelay(s));
      TimesAdd(x.turn, Times(j, s.size), SlotDelay(s));
      if m <= k { TimesMonotonic(m, k, SlotDelay(s)); } else { TimesMonotonic(k + 1, m, SlotDelay(s)); }
    }
  }

  /** Just past the interval, and a slot before it: read in any slot, the setting fails. */
  lemma FailsEverywhere(s: EnableSearch, f: Setting, lo: int, hi: int)
    requires Geometry(s) && hi < Pos(s, f) && Pos(s, f) - SlotDelay(s) < lo
    ensures forall t: int :: !Passing(s, f.(turn := t), lo, hi)
  {
    PosIs(s, f);
    TimesStep(f.turn - 1, SlotDelay(s));
    forall t: int ensures !Passing(s, f.(turn := t), lo, hi) { OutsideInSlot(s, f.(turn := t), f.turn - 1, lo, hi); }
  }

  // ---- The centre ----

  /** The window's middle, counted from slot 0. */
  function Middle(s: EnableSearch, w: Window): int { Times(w.origin, SlotDelay(s)) + (w.workBgn + w.workEnd) / 2 }

  /** The slot in which the programmed centre is the window's. */
  function Target(w: Window, cycles: int, p: int, d: int): Setting { Setting(w.origin + cycles, p, d) }

  /** What the search knows of its recorded edges, in delays from slot 0. */
  lemma MiddleOf(s: EnableSearch, tr: seq<Setting>, w: Window)
    requires s.Measured(tr, w)
    ensures w.workBgn == Pos(s, w.begin.at) - Times(w.origin, SlotDelay(s)) - (if w.moved then s.Lag(w.first.at) else 0)
    ensures w.workEnd == Pos(s, w.end) - Times(w.origin, SlotDelay(s)) - s.Lag(w.first.at)
  {
    PosFrom(s, w.begin.at, w.origin);
    PosFrom(s, w.end, w.origin);
  }

  /** The setting f stands for the delay m: rounded up to a delay tap, or phase 1 if m lies before that in its slot. */
  ghost predicate Rounded(s: EnableSearch, f: Setting, m: int)
  {
    && Programmable(s, f) && 0 <= f.tap && Times(f.turn, SlotDelay(s)) < m <= Times(f.turn + 1, SlotDelay(s))
    && if m <= Place(s, f.turn, 1) then f.phase == 1 && f.tap == 0
       else Pos(s, f) - s.dchain < m <= Pos(s, f) && Place(s, f.turn, f.phase) < m <= Place(s, f.turn, f.phase) + s.opa
  }

  lemma CentreIsRounded(s: EnableSearch, w: Window, mid: int, cycles: int, p: int, d: int)
    requires Geometry(s) && s.Centered(p, d, w.workBgn, w.workEnd, mid, cycles)
    ensures Rounded(s, Target(w, cycles, p, d), Middle(s, w))
  {
    PosIs(s, Target(w, cycles, p, d));
    TimesAdd(w.origin, cycles, SlotDelay(s));
    TimesStep(w.origin + cycles, SlotDelay(s));
    s.AtStep(0);
    s.AtStep(p);
  }

  /** A middle that is not later than the interval's end by much stays in it when it is rounded. */
  lemma RoundedInside(s: EnableSearch, f: Setting, m: int, k: int, q: int, begin: int, end: int)
    requires Geometry(s) && Rounded(s, f, m) && 1 <= q <= s.phaseMax && begin <= Place(s, k, q) && 2 * m <= begin + end
    requires Place(s, k, q) + (if q < s.phaseMax then s.opa else 2 * s.opa) <= end
    ensures m <= Pos(s, f) <= end
  {
    PosIs(s, f);
    var x, g, t := Place(s, k, q), Place(s, f.turn, f.phase), f.turn;
    s.AtStep(0);
    if m <= Place(s, t, 1) {
      if t <= k { PlacesInOrder(s, t, 1, k, q); } else { PlaceOrder(s, k, q, t, 1); }
    } else if t < k || (t == k && f.phase < q) {
      PlaceOrder(s, t, f.phase, k, q);
    } else {
      PlacesInOrder(s, k, q, t, f.phase);
      if t != k || f.phase != q { PlaceOrder(s, k, q, t, f.phase); }
      s.ChainStep(f.tap - 1);
      if 2 <= f.tap { s.ChainNonNegative(f.tap - 2); s.ChainStep(f.tap - 2); }
    }
  }

  /** The middle of taps of the last phase: rounded in that phase it stays between them. */
  lemma RoundedInGap(s: EnableSearch, n: nat, f: Setting, k: int, lo: int, hi: int)
    requires Geometry(s) && s.PerPhase(n) && GapAt(s, k, lo, hi) && s.opa <= hi - lo && Place(s, k, s.phaseMax) + s.Chain(n) >= lo
    requires Rounded(s, f, (BeginTap(s, Place(s, k, s.phaseMax), lo, n, 0) + EndTap(s, Place(s, k, s.phaseMax), hi, 0)) / 2)
    ensures if GapFails(s, n, k, lo, hi) then hi < Pos(s, f) && Pos(s, f) - SlotDelay(s) < lo else lo <= Pos(s, f) <= hi
  {
    var base := Place(s, k, s.phaseMax);
    var b := BeginTapAt(s, base, lo, n, 0);
    var e := EndTapAt(s, base, hi, 0);
    PerPhaseFits(s, n);
    var m := (base + s.Chain(b) + base + s.Chain(e)) / 2;
    BetweenTaps(s, base, lo, hi, b, e);
    SlotIsLong(s);
    TimesStep(k, SlotDelay(s));
    s.AtStep(0);
    InLastSlots(s, f, m, k);
    TapsOfLast(s, f, m, k, e);
  }

  /** Some tap lies in the interval, so the first one in it is not after the last. */
  lemma BetweenTaps(s: EnableSearch, base: int, lo: int, hi: int, b: nat, e: nat)
    requires Geometry(s) && base < lo && s.opa <= hi - lo && b <= s.delayMax
    requires lo <= base + s.Chain(b) && (0 < b ==> base + s.Chain(b - 1) < lo)
    requires base + s.Chain(e) <= hi && (e < s.delayMax ==> hi < base + s.Chain(e + 1))
    ensures s.Chain(b) <= s.Chain(e) && 0 < s.Chain(b)
  {
    s.ChainStep(b - 1);
    if e < b { TimesMonotonic(e + 1, b, s.dchain); } else { TimesMonotonic(b, e, s.dchain); }
  }

  /** Where a middle just past the last phase of slot k is rounded to. */
  lemma InLastSlots(s: EnableSearch, f: Setting, m: int, k: int)
    requires Geometry(s) && Rounded(s, f, m) && Place(s, k, s.phaseMax) < m < Place(s, k + 1, 1)
    ensures if Times(k + 1, SlotDelay(s)) < m then f == Setting(k + 1, 1, 0) && Pos(s, f) == Place(s, k + 1, 1)
            else f.turn == k && f.phase == s.phaseMax && Pos(s, f) - s.dchain < m <= Pos(s, f)
    ensures 0 <= f.tap
  {
    var t := f.turn;
    SlotIsLong(s);
    PosIs(s, f);
    s.AtStep(0);
    TimesStep(k, SlotDelay(s));
    TimesStep(k + 1, SlotDelay(s));
    if t < k { TimesMonotonic(t + 1, k, SlotDelay(s)); }
    if k + 1 < t { TimesMonotonic(k + 2, t, SlotDelay(s)); }
    if t == k && f.phase < s.phaseMax { PlaceOrder(s, t, f.phase, k, s.phaseMax); }
  }

  lemma TapsOfLast(s: EnableSearch, f: Setting, m: int, k: int, e: nat)
    requires Geometry(s) && 0 <= f.tap && m <= Place(s, k, s.phaseMax) + s.Chain(e)
    ensures f.turn == k && f.phase == s.phaseMax && Pos(s, f) - s.dchain < m ==> Pos(s, f) <= Place(s, k, s.phaseMax) + s.Chain(e)
  {
    PosIs(s, f);
    s.ChainStep(e);
    if e < f.tap { TimesMonotonic(e + 1, f.tap, s.dchain); } else { TimesMonotonic(f.tap, e, s.dchain); }
  }

  /** The middle of an interval whose only phase is the last of its slot. */
  lemma RoundedInLast(s: EnableSearch, n: nat, f: Setting, k: int, lo: int, hi: int)
    requires Geometry(s) && s.PerPhase(n) && 2 <= s.phaseMax && s.opa <= hi - lo
    requires FirstPlace(s, k, s.phaseMax, lo, hi) && hi < Place(s, k + 1, 1)
    requires Rounded(s, f, (BeginTap(s, Place(s, k, s.phaseMax - 1), lo, n, 0) + EndTap(s, Place(s, k, s.phaseMax), hi, 0)) / 2)
    ensures if FailsFrom(s, n, k, s.phaseMax, lo, hi) then hi < Pos(s, f) && Pos(s, f) - SlotDelay(s) < lo else lo <= Pos(s, f) <= hi
  {
    hide Rounded, BeginTap, EndTap, BeginsAt, Coarse;
    var x := Place(s, k, s.phaseMax);
    LastPlaces(s, k);
    var e := EndTapAt(s, x, hi, 0);
    var b := BeginOfLast(s, n, x - s.opa, lo);
    s.ChainNonNegative(e);
    BeginIsBetween(s, n, x - s.opa, lo, b);
    if x < (b + x + s.Chain(e)) / 2 {
      RoundedPastLast(s, n, f, k, lo, hi, b, e);
    } else {
      InPhaseBefore(s, f, (b + x + s.Chain(e)) / 2, k);
      CoarseRounds(s, n, f.tap, x - s.opa, (b + x + s.Chain(e)) / 2, lo, hi, b, e);
    }
  }

  lemma BeginIsBetween(s: EnableSearch, n: nat, base: int, lo: int, b: int)
    requires BeginsAt(s, n, base, lo, b)
    ensures lo <= b <= base + s.opa
  {
  }

  /** A middle past the last phase stays in the interval unless it falls into the next slot. */
  lemma RoundedPastLast(s: EnableSearch, n: nat, f: Setting, k: int, lo: int, hi: int, b: int, e: nat)
    requires Geometry(s) && 2 <= s.phaseMax && FirstPlace(s, k, s.phaseMax, lo, hi) && hi < Place(s, k + 1, 1)
    requires BeginsAt(s, n, Place(s, k, s.phaseMax) - s.opa, lo, b) && Place(s, k, s.phaseMax) + s.Chain(e) <= hi
    requires Place(s, k, s.phaseMax) < (b + Place(s, k, s.phaseMax) + s.Chain(e)) / 2
    requires Rounded(s, f, (b + Place(s, k, s.phaseMax) + s.Chain(e)) / 2)
    ensures !Coarse(s, n, Place(s, k, s.phaseMax) - s.opa, lo, hi)
    ensures if Times(k + 1, SlotDelay(s)) < (b + Place(s, k, s.phaseMax) + s.Chain(e)) / 2 then
              hi < Pos(s, f) && Pos(s, f) - SlotDelay(s) < lo
            else lo <= Pos(s, f) <= hi
  {
    hide Rounded, BeginsAt, Coarse;
    var x := Place(s, k, s.phaseMax);
    var m := (b + x + s.Chain(e)) / 2;
    s.ChainNonNegative(e);
    BeginIsBetween(s, n, x - s.opa, lo, b);
    InLastSlots(s, f, m, k);
    TapsOfLast(s, f, m, k, e);
    NotCoarse(s, n, x - s.opa, lo, hi, b, e);
    PlaceOrder(s, k, 1, k, s.phaseMax);
    s.AtStep(0);
    TimesStep(k, SlotDelay(s));
  }

  lemma LastPlaces(s: EnableSearch, k: int)
    requires Geometry(s) && 2 <= s.phaseMax
    ensures Place(s, k, s.phaseMax - 1) == Place(s, k, s.phaseMax) - s.opa
    ensures Place(s, k + 1, 1) == Place(s, k, s.phaseMax) + 2 * s.opa && Times(k + 1, SlotDelay(s)) == Place(s, k, s.phaseMax) + s.opa
    ensures 3 * s.opa <= SlotDelay(s)
  {
    s.AtStep(s.phaseMax - 1);
    s.AtStep(0);
    SlotIsLong(s);
    TimesStep(k, SlotDelay(s));
    s.AtPositive(s.phaseMax - 1);
  }

  /** The first tap of the phase before that is in the interval, or a phase tap on. */
  ghost predicate BeginsAt(s: EnableSearch, n: nat, base: int, lo: int, b: int)
  {
    && lo <= b <= base + s.opa
    && (b < base + s.opa ==> exists c: nat :: 1 <= c <= n && b == base + s.Chain(c) && base + s.Chain(c - 1) < lo)
    && (b == base + s.opa ==> base + s.Chain(n) < lo)
  }

  /** Where the begin edge of such an interval is: at a tap of the phase before, or at the phase. */
  lemma BeginOfLast(s: EnableSearch, n: nat, base: int, lo: int) returns (b: int)
    requires Geometry(s) && s.PerPhase(n) && base < lo <= base + s.opa
    ensures b == BeginTap(s, base, lo, n, 0) && BeginsAt(s, n, base, lo, b)
  {
    b := BeginTap(s, base, lo, n, 0);
    if base + s.Chain(n) < lo {
      NoBeginTap(s, base, lo, n, 0);
    } else {
      var c := BeginTapAt(s, base, lo, n, 0);
      TimesMonotonic(c, n, s.dchain);
    }
  }

  /** A middle up to the last phase is rounded in the phase before. */
  lemma InPhaseBefore(s: EnableSearch, f: Setting, m: int, k: int)
    requires Geometry(s) && Rounded(s, f, m) && 2 <= s.phaseMax && Place(s, k, s.phaseMax - 1) < m <= Place(s, k, s.phaseMax)
    ensures f.turn == k && f.phase == s.phaseMax - 1 && 0 <= f.tap
    ensures Pos(s, f) == Place(s, k, s.phaseMax - 1) + s.Chain(f.tap) && Pos(s, f) - s.dchain < m <= Pos(s, f)
  {
    var t := f.turn;
    SlotIsLong(s);
    LastPlaces(s, k);
    PosIs(s, f);
    s.AtPositive(s.phaseMax - 1);
    s.AtStep(0);
    if t < k { TimesMonotonic(t + 1, k, SlotDelay(s)); }
    if k < t { TimesMonotonic(k + 1, t, SlotDelay(s)); }
    if t == k && f.phase < s.phaseMax - 1 { PlaceOrder(s, t, f.phase, k, s.phaseMax - 1); }
  }

  lemma EndOfCoarse(s: EnableSearch, x: int, hi: int, e: nat)
    requires Geometry(s) && x + s.Chain(e) <= hi < x + s.dchain
    ensures e == 0
  {
    if 1 <= e { TimesMonotonic(1, e, s.dchain); }
  }

  /** A middle past the last phase is not one of a coarse chain. */
  lemma NotCoarse(s: EnableSearch, n: nat, base: int, lo: int, hi: int, b: int, e: nat)
    requires Geometry(s) && BeginsAt(s, n, base, lo, b) && base + s.opa + s.Chain(e) <= hi
    requires base + s.opa < (b + base + s.opa + s.Chain(e)) / 2
    ensures !Coarse(s, n, base, lo, hi)
  {
    if Coarse(s, n, base, lo, hi) { EndOfCoarse(s, base + s.opa, hi, e); }
  }

  /** A middle before the last phase is rounded out of the interval exactly if the chain is coarse. */
  lemma CoarseRounds(s: EnableSearch, n: nat, d: int, base: int, m: int, lo: int, hi: int, b: int, e: nat)
    requires Geometry(s) && s.PerPhase(n) && BeginsAt(s, n, base, lo, b) && base < lo && s.opa <= hi - lo && 0 <= d
    requires base + s.opa + s.Chain(e) <= hi && m == (b + base + s.opa + s.Chain(e)) / 2 <= base + s.opa
    requires base + s.Chain(d) - s.dchain < m <= base + s.Chain(d)
    ensures hi < base + s.Chain(d) <==> Coarse(s, n, base, lo, hi)
  {
    s.ChainNonNegative(e);
    if Coarse(s, n, base, lo, hi) {
      EndOfCoarse(s, base + s.opa, hi, e);
      CoarseBegin(s, n, base, lo, b);
      s.ChainStep(0);
      s.ChainStep(1);
      if 2 <= d { TimesMonotonic(2, d, s.dchain); } else { TimesMonotonic(d, 1, s.dchain); }
    }
    if hi < base + s.Chain(d) {
      RoundedOutTap(s, n, d, base, m, hi);
      EndOfCoarse(s, base + s.opa, hi, e);
      s.ChainStep(n);
      RoundedOutBegin(s, n, base, m, lo, hi, b);
    }
  }

  lemma CoarseBegin(s: EnableSearch, n: nat, base: int, lo: int, b: int)
    requires Geometry(s) && s.PerPhase(n) && BeginsAt(s, n, base, lo, b) && n == 1 && s.dchain < s.opa && base < lo <= base + s.dchain
    ensures b == base + s.dchain
  {
  }

  /** The tap a middle below a phase tap is rounded to is at most one more than those below it. */
  lemma RoundedOutTap(s: EnableSearch, n: nat, d: int, base: int, m: int, hi: int)
    requires Geometry(s) && s.PerPhase(n) && 0 <= d && base + s.opa <= hi < base + s.Chain(d)
    requires base + s.Chain(d) - s.dchain < m <= base + s.opa
    ensures d == n + 1
  {
    s.ChainStep(d - 1);
    if d <= n { TimesMonotonic(d, n, s.dchain); }
    if n + 2 <= d { TimesMonotonic(n + 1, d - 1, s.dchain); }
  }

  lemma RoundedOutBegin(s: EnableSearch, n: nat, base: int, m: int, lo: int, hi: int, b: int)
    requires Geometry(s) && s.PerPhase(n) && BeginsAt(s, n, base, lo, b) && base < lo && s.opa <= hi - lo
    requires m == (b + base + s.opa) / 2 && base + s.Chain(n) < m && hi < base + s.Chain(n) + s.dchain
    ensures Coarse(s, n, base, lo, hi)
  {
    s.ChainStep(n);
    if b < base + s.opa {
      var c: nat :| 1 <= c <= n && b == base + s.Chain(c) && base + s.Chain(c - 1) < lo;
      s.ChainStep(0);
      if 2 <= c { TimesMonotonic(1, c - 1, s.dchain); }
      s.ChainStep(1);
      if 2 <= n { TimesMonotonic(2, n, s.dchain); }
    }
  }

  // ---- The centre of a measured window ----

  /** f passes in some slot exactly if it should. */
  ghost predicate Decides(s: EnableSearch, f: Setting, fails: bool, lo: int, hi: int)
  {
    if fails then forall t: int :: !Passing(s, f.(turn := t), lo, hi) else exists t: int :: Passing(s, f.(turn := t), lo, hi)
  }

  lemma InsideDecides(s: EnableSearch, f: Setting, lo: int, hi: int)
    requires lo <= Pos(s, f) <= hi
    ensures Decides(s, f, false, lo, hi)
  {
    assert lo <= Pos(s, f) + Times(0, Turn(s)) <= hi;
    assert Passing(s, f.(turn := f.turn), lo, hi);
  }

  lemma OutsideDecides(s: EnableSearch, f: Setting, lo: int, hi: int)
    requires Geometry(s) && hi < Pos(s, f) && Pos(s, f) - SlotDelay(s) < lo
    ensures Decides(s, f, true, lo, hi)
  {
    FailsEverywhere(s, f, lo, hi);
  }

  /** Rounding never goes down, and up by less than a phase tap. */
  lemma RoundedNear(s: EnableSearch, f: Setting, m: int)
    requires Geometry(s) && Rounded(s, f, m)
    ensures m <= Pos(s, f) < m + s.opa
  {
    PosIs(s, f);
    s.AtStep(0);
  }

  /** A window that begins at phase 1 and whose begin edge was moved is centred a phase tap past its first setting. */
  lemma MovedFromPhaseOne(s: EnableSearch, n: nat, f: Setting, t: int, lo: int, hi: int)
    requires Geometry(s) && s.PerPhase(n) && Rounded(s, f, Place(s, t, 1) + s.opa) && s.phaseMax != 2
    requires lo <= Place(s, t, 1) <= hi
    ensures Decides(s, f, FailsFrom(s, n, t, 1, lo, hi), lo, hi)
  {
    var x, y := Place(s, t, 1), f.(turn := t - 1);
    SlotIsLong(s);
    s.AtStep(0);
    PosIs(s, f);
    PosIs(s, y);
    TimesStep(t, SlotDelay(s));
    TimesStep(t - 1, SlotDelay(s));
    if f.turn < t { TimesMonotonic(f.turn + 1, t, SlotDelay(s)); }
    if t < f.turn { TimesMonotonic(t + 1, f.turn, SlotDelay(s)); }
    if 2 <= f.phase { PlaceOrder(s, t, 1, f.turn, f.phase); }
    s.ChainStep(f.tap - 1);
    PerPhaseIsUnique(s, f.tap - 1, n);
    if hi < x + s.Chain(n + 1) {
      if x - SlotDelay(s) + s.Chain(n + 1) < lo {
        OutsideDecides(s, f, lo, hi);
      } else {
        s.ChainStep(n);
        InsideDecides(s, y, lo, hi);
        assert f.(turn := y.turn) == y;
      }
    } else {
      InsideDecides(s, f, lo, hi);
    }
  }

  /** Phase 1 is rounded to itself. */
  lemma RoundedPhaseOne(s: EnableSearch, f: Setting, t: int)
    requires Geometry(s) && Rounded(s, f, Place(s, t, 1))
    ensures Pos(s, f) == Place(s, t, 1)
  {
    SlotIsLong(s);
    s.AtStep(0);
    PosIs(s, f);
    TimesStep(t, SlotDelay(s));
    if f.turn < t { TimesMonotonic(f.turn + 1, t, SlotDelay(s)); }
    if t < f.turn { TimesMonotonic(t + 1, f.turn, SlotDelay(s)); }
  }

  /** Where the window begins at phase 1. */
  lemma CentreFromPhaseOne(s: EnableSearch, tr: seq<Setting>, n: nat, w: Window, f: Setting, lo: int, hi: int)
    requires Geometry(s) && s.PerPhase(n) && Fits(s, w, lo, hi) && s.Measured(tr, w) && w.first.at.phase == 1
    requires Rounded(s, f, Middle(s, w))
    ensures Decides(s, f, FailsFrom(s, n, w.first.at.turn, 1, lo, hi), lo, hi)
  {
    hide EnableSearch.Measured, Decides;
    MiddleOf(s, tr, w);
    PosIs(s, w.first.at);
    if w.moved {
      MovedFromPhaseOne(s, n, f, w.first.at.turn, lo, hi);
    } else {
      RoundedNear(s, f, Middle(s, w));
      s.ChainStep(n);
      if OnlyPhaseOne(s, w.first.at, hi) { RoundedPhaseOne(s, f, w.first.at.turn); }
      InsideDecides(s, f, lo, hi);
    }
  }

  /** Where it begins at a later phase, but not the last. */
  lemma CentreFromPhase(s: EnableSearch, tr: seq<Setting>, n: nat, w: Window, f: Setting, lo: int, hi: int)
    requires Geometry(s) && s.PerPhase(n) && Fits(s, w, lo, hi) && s.Measured(tr, w) && 2 <= w.first.at.phase < s.phaseMax
    requires Rounded(s, f, Middle(s, w))
    ensures Decides(s, f, FailsFrom(s, n, w.first.at.turn, w.first.at.phase, lo, hi), lo, hi)
    ensures !w.moved ==> lo <= Middle(s, w) <= hi
  {
    MiddleOf(s, tr, w);
    PosIs(s, w.first.at);
    if w.moved {
      RoundedNear(s, f, Middle(s, w));
      LastPlaces(s, 0);
      OutsideDecides(s, f, lo, hi);
    } else {
      RoundedInside(s, f, Middle(s, w), w.first.at.turn, w.first.at.phase, Pos(s, w.begin.at), Pos(s, w.end));
      InsideDecides(s, f, lo, hi);
    }
  }

  /** The begin edge of a window whose only phase is the last of its slot. */
  lemma BeginOfWindow(s: EnableSearch, tr: seq<Setting>, n: nat, first: Edge, r: Edge, lo: int, hi: int)
    requires Geometry(s) && s.PerPhase(n) && Local(s, tr, lo, hi) && s.RefinedEdge(tr, first, r) && first.at.tap == 0
    requires first.at.phase == s.phaseMax != 1 && lo <= Pos(s, first.at) <= hi && Pos(s, first.at) - s.opa < lo
    requires lo <= Pos(s, r.at) && Pos(s, r.at) - s.dchain < lo
    ensures Pos(s, r.at) == BeginTap(s, Pos(s, first.at) - s.opa, lo, n, 0)
  {
    var x, c := Pos(s, first.at), r.at.tap;
    SlotIsLong(s);
    if r == first {
      assert s.TapFailed(tr, first, n);
      TapAt(s, tr, first, n);
      NoBeginTap(s, x - s.opa, lo, n, 0);
    } else {
      TapAt(s, tr, first, c);
      if n < c { TimesMonotonic(n + 1, c, s.dchain); }
      if 0 < c { s.ChainStep(c - 1); }
      BeginTapIs(s, x - s.opa, lo, n, 0, c);
    }
  }

  /** Its end edge. */
  lemma EndOfWindow(s: EnableSearch, tr: seq<Setting>, w: Window, lo: int, hi: int)
    requires Geometry(s) && Fits(s, w, lo, hi) && s.EndEdge(tr, w) && !w.moved
    requires w.first.at.phase == s.phaseMax != 1 && hi < Pos(s, w.first.at) + 2 * s.opa
    ensures Pos(s, w.end) == EndTap(s, Pos(s, w.first.at), hi, 0)
  {
    hide EnableSearch.EndPhase;
    PosIs(s, w.end);
    PosIs(s, w.first.at);
    s.ChainStep(w.end.tap);
    EndTapIs(s, Pos(s, w.first.at), hi, 0, w.end.tap);
  }

  lemma LastIsRefined(s: EnableSearch, tr: seq<Setting>, w: Window)
    requires s.Measured(tr, w) && !w.moved
    ensures s.RefinedEdge(tr, w.first, w.begin) && s.EndEdge(tr, w)
  {
    hide EnableSearch.RefinedEdge, EnableSearch.FirstPassing, EnableSearch.EndEdge;
  }

  /** Where it begins at the last phase and holds no other. */
  lemma CentreOfLast(s: EnableSearch, tr: seq<Setting>, n: nat, w: Window, f: Setting, lo: int, hi: int)
    requires Geometry(s) && s.PerPhase(n) && Local(s, tr, lo, hi) && Fits(s, w, lo, hi) && s.Measured(tr, w) && !w.moved
    requires w.first.at.phase == s.phaseMax != 1 && hi < Pos(s, w.first.at) + 2 * s.opa
    requires Rounded(s, f, (Pos(s, w.begin.at) + Pos(s, w.end)) / 2)
    ensures Decides(s, f, FailsFrom(s, n, w.first.at.turn, s.phaseMax, lo, hi), lo, hi)
  {
    hide BeginTap, EndTap, Rounded, EnableSearch.Measured, EnableSearch.RefinedEdge, EnableSearch.EndEdge, Decides, FailsFrom;
    var k := w.first.at.turn;
    PosIs(s, w.first.at);
    LastPlaces(s, k);
    LastIsRefined(s, tr, w);
    BeginOfWindow(s, tr, n, w.first, w.begin, lo, hi);
    EndOfWindow(s, tr, w, lo, hi);
    hide Fits, Local;
    RoundedInLast(s, n, f, k, lo, hi);
    if FailsFrom(s, n, k, s.phaseMax, lo, hi) { OutsideDecides(s, f, lo, hi); } else { InsideDecides(s, f, lo, hi); }
  }

  /** Where it begins at the last phase. */
  lemma CentreFromLast(s: EnableSearch, tr: seq<Setting>, n: nat, w: Window, f: Setting, lo: int, hi: int)
    requires Geometry(s) && s.PerPhase(n) && Local(s, tr, lo, hi) && Fits(s, w, lo, hi) && s.Measured(tr, w)
    requires w.first.at.phase == s.phaseMax != 1 && Rounded(s, f, Middle(s, w))
    ensures Decides(s, f, FailsFrom(s, n, w.first.at.turn, s.phaseMax, lo, hi), lo, hi)
    ensures !w.moved && lo <= Middle(s, w) <= hi
  {
    hide BeginTap, EndTap, Rounded, EnableSearch.Measured, Decides, Local;
    var x, k := Pos(s, w.first.at), w.first.at.turn;
    MiddleOf(s, tr, w);
    PosIs(s, w.first.at);
    if hi < x + 2 * s.opa {
      CentreOfLast(s, tr, n, w, f, lo, hi);
    } else {
      RoundedInside(s, f, Middle(s, w), k, s.phaseMax, Pos(s, w.begin.at), Pos(s, w.end));
      InsideDecides(s, f, lo, hi);
    }
  }

  // ---- Edges ----

  /** What the edges of a centred window are worth that does not begin at phase 1: within a tap of the interval's, the middle between. */
  ghost predicate Close(s: EnableSearch, w: Window, lo: int, hi: int)
  {
    && lo <= Pos(s, w.begin.at) < lo + s.dchain && lo <= Middle(s, w) <= hi
    && Pos(s, w.end) <= hi && (if w.taps <= s.delayMax then hi < Pos(s, w.end) + s.dchain else w.end.tap == s.delayMax)
  }

  // ---- An interval in a gap ----

  /** A sweep over a whole turn tries the last phase of every slot. */
  lemma SweepCovers(s: EnableSearch, tr: seq<Setting>, from: nat, t: int, d: int, m: int, a: int, b: int)
    requires Geometry(s) && Steady(s, tr, a, b) && s.Sweep(tr, from, t, d)
    requires forall n :: from <= n < from + s.PerSweep() ==> !s.verdict(n)
    ensures !Passing(s, Setting(m, s.phaseMax, d), a, b)
  {
    var q := (m - t) / s.size;
    QuotientBounds(m - t, s.size);
    var i := m - t - Times(q, s.size);
    TimesNonNegative(i, s.phaseMax);
    TimesMonotonic(i + 1, s.size, s.phaseMax);
    TimesStep(i, s.phaseMax);
    var n := from + Times(i, s.phaseMax) + s.phaseMax - 1;
    Counted(s, tr, from, n);
    TimesAdd(t, i, s.phaseMax);
    LastInRow(s, tr[n], t + i);
    SlotRepeats(s, Setting(m, s.phaseMax, d), tr[n], q);
    if Passing(s, Setting(m, s.phaseMax, d), a, b) { PassingRepeats(s, Setting(m, s.phaseMax, d), tr[n], -q, a, b); }
  }

  lemma LastInRow(s: EnableSearch, x: Setting, t: int)
    requires Programmable(s, x) && Times(x.turn, s.phaseMax) + x.phase == Times(t, s.phaseMax) + s.phaseMax
    ensures x.turn == t && x.phase == s.phaseMax
  {
    if x.turn < t { RowsDoNotOverlap(x.turn, x.phase - 1, t, s.phaseMax - 1, s.phaseMax); }
    if t < x.turn { RowsDoNotOverlap(t, s.phaseMax - 1, x.turn, x.phase - 1, s.phaseMax); }
  }

  /** A search that finds nothing tried the last tap below a phase tap. */
  lemma GapNotReached(s: EnableSearch, tr: seq<Setting>, failing: nat, n: nat, k: int, a: int, b: int)
    requires Geometry(s) && Steady(s, tr, a, b) && Copy(s, a, b, a, b) && GapAt(s, k, a, b)
    requires s.PerPhase(n) && s.NoneFound(tr, failing, n)
    ensures GapFails(s, n, k, a, b)
  {
    var x := Setting(k, s.phaseMax, n);
    var from := failing + Times(n, s.PerSweep());
    assert s.Sweep(tr, from, tr[failing - 1].turn + Times(n, s.size), n);
    TimesNonNegative(n, s.PerSweep());
    TimesStep(n, s.PerSweep());
    SweepCovers(s, tr, from, tr[failing - 1].turn + Times(n, s.size), n, k, a, b);
    PosIs(s, x);
    SlotIsLong(s);
    s.ChainNonNegative(n);
    PassingNear(s, x, a, b, a, b);
  }

  /** A search that finds something in a gap finds its first tap, in some copy. */
  lemma GapFirst(s: EnableSearch, tr: seq<Setting>, failing: nat, first: Edge, origin: int, n: nat, k: int, a: int, b: int)
    returns (lo: int, hi: int, m: int, j: int)
    requires Geometry(s) && Steady(s, tr, a, b) && Copy(s, a, b, a, b) && GapAt(s, k, a, b)
    requires s.PerPhase(n) && s.FirstPassing(tr, failing, first, origin)
    ensures lo == a + Times(j, Turn(s)) && hi == b + Times(j, Turn(s)) && m == k + Times(j, s.size)
    ensures Copy(s, lo, hi, a, b) && GapAt(s, m, lo, hi) && first.at.turn == m && first.at.phase == s.phaseMax && 1 <= first.at.tap <= n
    ensures lo <= Pos(s, first.at) <= hi && Pos(s, first.at) == Place(s, m, s.phaseMax) + s.Chain(first.at.tap)
    ensures Place(s, m, s.phaseMax) + s.Chain(first.at.tap - 1) < lo
  {
    hide EnableSearch.FirstPassing, EnableSearch.Sweeps, GapFails;
    s.FirstReads(tr, failing, first, origin);
    BelowPhaseTap(s, tr, failing, first, origin, n);
    var i: int :| a <= Pos(s, first.at) + Times(i, Turn(s)) <= b;
    j := -i;
    TimesAdd(i, -i, Turn(s));
    lo, hi, m := a + Times(j, Turn(s)), b + Times(j, Turn(s)), k + Times(j, s.size);
    GapMoves(s, n, k, j, a, b);
    InGapIsLast(s, first.at, m, lo, hi);
    EarlierTapFails(s, tr, failing, first, origin, a, b, lo, hi);
  }

  lemma BelowPhaseTap(s: EnableSearch, tr: seq<Setting>, failing: nat, first: Edge, origin: int, n: nat)
    requires Geometry(s) && s.PerPhase(n) && s.FirstPassing(tr, failing, first, origin)
    ensures s.Chain(first.at.tap) < s.opa && first.at.tap <= n
  {
    if n < first.at.tap { TimesMonotonic(n + 1, first.at.tap, s.dchain); }
  }

  /** A setting in a gap with less delay than a phase tap is at the phase before. */
  lemma InGapIsLast(s: EnableSearch, x: Setting, m: int, lo: int, hi: int)
    requires Geometry(s) && GapAt(s, m, lo, hi) && Programmable(s, x) && 0 <= x.tap && s.Chain(x.tap) < s.opa && lo <= Pos(s, x) <= hi
    ensures x.turn == m && x.phase == s.phaseMax && 1 <= x.tap
    ensures Pos(s, x) == Place(s, m, s.phaseMax) + s.Chain(x.tap)
  {
    PosIs(s, x);
    s.ChainNonNegative(x.tap);
    if m < x.turn { PlacesInOrder(s, m + 1, 1, x.turn, x.phase); }
    if x.turn < m || (x.turn == m && x.phase < s.phaseMax) { PlaceOrder(s, x.turn, x.phase, m, s.phaseMax); }
  }

  /** Every delay tap below the first passing one was tried at the last phase of every slot. */
  lemma SweptBefore(s: EnableSearch, tr: seq<Setting>, failing: nat, first: Edge, origin: int, d: nat, a: int, b: int)
    requires Geometry(s) && Steady(s, tr, a, b) && s.FirstPassing(tr, failing, first, origin) && d < first.at.tap
    ensures !Passing(s, Setting(first.at.turn, s.phaseMax, d), a, b)
  {
    hide EnableSearch.FirstPassing, EnableSearch.Sweep, Steady, Passing;
    var from, t := SweepBefore(s, tr, failing, first, origin, d);
    SweepCovers(s, tr, from, t, d, first.at.turn, a, b);
  }

  lemma SweepBefore(s: EnableSearch, tr: seq<Setting>, failing: nat, first: Edge, origin: int, d: nat) returns (from: nat, t: int)
    requires Geometry(s) && s.FirstPassing(tr, failing, first, origin) && d < first.at.tap
    ensures s.Sweep(tr, from, t, d) && forall n :: from <= n < from + s.PerSweep() ==> !s.verdict(n)
  {
    from, t := failing + Times(d, s.PerSweep()), tr[failing - 1].turn + Times(d, s.size);
    assert s.Sweep(tr, from, t, d);
    hide EnableSearch.Sweeps, EnableSearch.Consecutive;
    TimesNonNegative(d, s.PerSweep());
    TimesStep(d, s.PerSweep());
    TimesMonotonic(d + 1, first.at.tap, s.PerSweep());
  }

  /** So the tap before it lies before the interval. */
  lemma EarlierTapFails(s: EnableSearch, tr: seq<Setting>, failing: nat, first: Edge, origin: int, a: int, b: int, lo: int, hi: int)
    requires Geometry(s) && Steady(s, tr, a, b) && Copy(s, lo, hi, a, b) && s.FirstPassing(tr, failing, first, origin)
    requires first.at.phase == s.phaseMax && 1 <= first.at.tap && lo <= Pos(s, first.at) <= hi && s.dchain <= s.opa
    ensures Pos(s, first.at) - s.dchain < lo && s.Chain(first.at.tap - 1) == s.Chain(first.at.tap) - s.dchain
  {
    hide EnableSearch.FirstPassing, Steady;
    var d := first.at.tap - 1;
    var y := first.at.(tap := d);
    SweptBefore(s, tr, failing, first, origin, d, a, b);
    PosIs(s, y);
    PosIs(s, first.at);
    s.ChainStep(d);
    SlotIsLong(s);
    PassingNear(s, y, a, b, lo, hi);
  }

  /** The measured window of such a search. */
  lemma GapWindow(s: EnableSearch, tr: seq<Setting>, w: Window, n: nat, m: int, lo: int, hi: int)
    requires Geometry(s) && s.PerPhase(n) && Local(s, tr, lo, hi) && GapAt(s, m, lo, hi) && s.Measured(tr, w)
    requires w.first.at.turn == m && w.first.at.phase == s.phaseMax && 1 <= w.first.at.tap <= n && lo <= Pos(s, w.first.at) <= hi
    requires Pos(s, w.first.at) == Place(s, m, s.phaseMax) + s.Chain(w.first.at.tap) && Place(s, m, s.phaseMax) + s.Chain(w.first.at.tap - 1) < lo
    ensures !w.moved && w.begin == w.first && w.first.at.tap < w.taps && Pos(s, w.end) <= hi
    ensures if w.taps <= s.delayMax then hi < Pos(s, w.end) + s.dchain else w.end.tap == s.delayMax
    ensures Pos(s, w.begin.at) == BeginTap(s, Place(s, m, s.phaseMax), lo, n, 0)
    ensures Pos(s, w.end) == EndTap(s, Place(s, m, s.phaseMax), hi, 0)
    ensures Middle(s, w) == (Pos(s, w.begin.at) + Pos(s, w.end)) / 2 && Close(s, w, lo, hi)
  {
    hide EnableSearch.FirstPassing, Local, BeginTap, EndTap;
    var base, d := Place(s, m, s.phaseMax), w.first.at.tap;
    PerPhaseFits(s, n);
    SlotIsLong(s);
    ExtensionAt(s, tr, w, lo, hi);
    MiddleOf(s, tr, w);
    BeginTapIs(s, base, lo, n, 0, d);
    PosIs(s, w.end);
    PosIs(s, w.first.at);
    s.ChainStep(w.end.tap);
    EndTapIs(s, base, hi, 0, w.end.tap);
    TimesMonotonic(d, w.end.tap, s.dchain);
    s.ChainStep(d - 1);
  }

  // ---- The search ----

  /** The copy of the interval ahead of the second failing read. */
  lemma CopyAhead(s: EnableSearch, tr: seq<Setting>, start: nat, failing: nat, a: int, b: int) returns (lo: int, hi: int)
    requires Geometry(s) && Steady(s, tr, a, b) && s.SecondFailure(tr, start, failing)
    requires s.opa <= b - a && b + 2 * SlotDelay(s) < a + Turn(s)
    ensures Copy(s, lo, hi, a, b) && hi - lo == b - a && Local(s, tr, lo, hi)
    ensures 0 < failing <= |tr| && Ahead(s, Setting(tr[failing - 1].turn, 1, 0), lo, hi)
  {
    SlotIsLong(s);
    lo, hi := NextCopy(s, tr[failing - 1], a, b);
    LocalCopy(s, tr, a, b, lo, hi);
    assert tr[failing - 1] == Setting(tr[failing - 1].turn, 1, 0);
  }

  lemma AnEndIsSeen(s: EnableSearch, tr: seq<Setting>, w: Window, lo: int, hi: int)
    requires Geometry(s) && Local(s, tr, lo, hi) && !InGap(s, lo, hi) && s.Begun(tr, w) && Ahead(s, Setting(tr[w.failing - 1].turn, 1, 0), lo, hi)
    ensures !s.ScannedOn(tr, w)
  {
    FirstAt(s, tr, w.failing, w.first, w.origin, lo, hi);
    ScanStops(s, tr, w, lo, hi);
  }

  /** A search that tries every setting of the first tap cannot fail to find one. */
  lemma NoneIsFound(s: EnableSearch, tr: seq<Setting>, failing: nat, dtaps: nat, lo: int, hi: int)
    requires Geometry(s) && Local(s, tr, lo, hi) && !InGap(s, lo, hi) && 0 < failing <= |tr| && Ahead(s, Setting(tr[failing - 1].turn, 1, 0), lo, hi)
    ensures !s.NoneFound(tr, failing, dtaps)
  {
    if s.NoneFound(tr, failing, dtaps) {
      assert s.Sweep(tr, failing + Times(0, s.PerSweep()), tr[failing - 1].turn + Times(0, s.size), 0);
      TimesMonotonic(1, dtaps + 1, s.PerSweep());
      SweepMeets(s, tr, lo, hi, failing);
    }
  }

  /** A steady window is never nil. */
  lemma NotNil(s: EnableSearch, tr: seq<Setting>, w: Window, lo: int, hi: int)
    requires s.Measured(tr, w) && Fits(s, w, lo, hi)
    ensures w.moved ==> w.workBgn == w.workEnd
    ensures w.first.at.tap == 0
  {
    MiddleOf(s, tr, w);
  }

  /** With its window measured, the search ends as the programmed centre reads. */
  lemma EndsByCentre(s: EnableSearch, tr: seq<Setting>, e: Ending, start: nat, fails: bool, lo: int, hi: int)
    requires Geometry(s) && Steady(s, tr, lo, hi) && s.Ended(tr, e, start) && (e.Centred? || e.NoPass?)
    requires Decides(s, Target(e.w, e.cycles, e.p, e.d), fails, lo, hi)
    ensures e.Centred? <==> !fails
  {
    hide EnableSearch.Measured, EnableSearch.Tracked, EnableSearch.Centered, EnableSearch.SecondFailure;
    var f := Target(e.w, e.cycles, e.p, e.d);
    if e.Centred? {
      var last := tr[|tr| - 1];
      assert last == f.(turn := last.turn) && Passing(s, last, lo, hi);
    } else {
      forall t: int ensures !Passing(s, f.(turn := t), lo, hi) { PushMeets(s, tr, e.from, f.(turn := t), lo, hi); }
    }
  }

  lemma CentredIsMeasured(s: EnableSearch, tr: seq<Setting>, e: Ending, start: nat)
    requires s.Ended(tr, e, start) && (e.Centred? || e.NoPass?)
    ensures s.Measured(tr, e.w) && s.Centered(e.p, e.d, e.w.workBgn, e.w.workEnd, e.mid, e.cycles)
  {
    hide EnableSearch.Measured, EnableSearch.Centered;
  }

  /** An interval in a gap between two slots. */
  lemma GapSearch(s: EnableSearch, tr: seq<Setting>, e: Ending, start: nat, n: nat, k: int, a: int, b: int) returns (lo: int, hi: int)
    requires Geometry(s) && s.PerPhase(n) && Steady(s, tr, a, b) && Copy(s, a, b, a, b) && GapAt(s, k, a, b) && s.Ended(tr, e, start)
    ensures e.Centred? <==> !GapFails(s, n, k, a, b)
    ensures e.Centred? ==> Copy(s, lo, hi, a, b) && e.w.first.at.phase == s.phaseMax && Close(s, e.w, lo, hi)
  {
    lo, hi := a, b;
    FailuresAreSeen(s, tr, e, start, a, b);
    if e.NoBegin? {
      PerPhaseIsUnique(s, e.dtaps, n);
      GapNotReached(s, tr, e.failing, n, k, a, b);
    } else {
      lo, hi := GapEnds(s, tr, e, start, n, k, a, b);
    }
  }

  lemma GapEnds(s: EnableSearch, tr: seq<Setting>, e: Ending, start: nat, n: nat, k: int, a: int, b: int) returns (lo: int, hi: int)
    requires Geometry(s) && s.PerPhase(n) && Steady(s, tr, a, b) && Copy(s, a, b, a, b) && GapAt(s, k, a, b) && s.Ended(tr, e, start)
    requires !e.NoFailure? && !e.NoBegin?
    ensures e.Centred? <==> !GapFails(s, n, k, a, b)
    ensures e.Centred? ==> Copy(s, lo, hi, a, b) && e.w.first.at.phase == s.phaseMax && Close(s, e.w, lo, hi)
  {
    hide EnableSearch.FirstPassing, EnableSearch.BeginEdge, EnableSearch.EndEdge, EnableSearch.SecondFailure, EnableSearch.Tracked;
    hide EnableSearch.Pushed, EnableSearch.Centered, GapFails, Decides;
    var m, j;
    lo, hi, m, j := GapFirst(s, tr, e.w.failing, e.w.first, e.w.origin, n, k, a, b);
    GapMoves(s, n, k, j, a, b);
    SteadyCopy(s, tr, lo, hi, a, b);
    if e.Centred? || e.NoPass? {
      GapCentre(s, tr, e, start, n, m, lo, hi);
      EndsByCentre(s, tr, e, start, GapFails(s, n, m, lo, hi), lo, hi);
    } else if e.NilRange? {
      GapWindow(s, tr, e.w, n, m, lo, hi);
    }
  }

  lemma GapCentre(s: EnableSearch, tr: seq<Setting>, e: Ending, start: nat, n: nat, m: int, lo: int, hi: int)
    requires Geometry(s) && s.PerPhase(n) && Local(s, tr, lo, hi) && GapAt(s, m, lo, hi) && s.Ended(tr, e, start) && (e.Centred? || e.NoPass?)
    requires e.w.first.at.turn == m && e.w.first.at.phase == s.phaseMax && 1 <= e.w.first.at.tap <= n && lo <= Pos(s, e.w.first.at) <= hi
    requires Pos(s, e.w.first.at) == Place(s, m, s.phaseMax) + s.Chain(e.w.first.at.tap)
    requires Place(s, m, s.phaseMax) + s.Chain(e.w.first.at.tap - 1) < lo
    ensures Decides(s, Target(e.w, e.cycles, e.p, e.d), GapFails(s, n, m, lo, hi), lo, hi) && Close(s, e.w, lo, hi)
  {
    hide BeginTap, EndTap, Rounded, Decides, EnableSearch.Ended, EnableSearch.Measured, EnableSearch.Centered;
    CentredIsMeasured(s, tr, e, start);
    var f := Target(e.w, e.cycles, e.p, e.d);
    CentreIsRounded(s, e.w, e.mid, e.cycles, e.p, e.d);
    GapWindow(s, tr, e.w, n, m, lo, hi);
    TimesMonotonic(e.w.first.at.tap, n, s.dchain);
    RoundedInGap(s, n, f, m, lo, hi);
    if GapFails(s, n, m, lo, hi) { OutsideDecides(s, f, lo, hi); } else { InsideDecides(s, f, lo, hi); }
  }

  /** An interval with a usable phase in it. */
  lemma OpenSearch(s: EnableSearch, tr: seq<Setting>, e: Ending, start: nat, n: nat, a: int, b: int) returns (lo: int, hi: int)
    requires Geometry(s) && s.PerPhase(n) && Steady(s, tr, a, b) && Copy(s, a, b, a, b) && !InGap(s, a, b) && s.Ended(tr, e, start)
    ensures Copy(s, lo, hi, a, b) && (e.Centred? || e.NoPass?) && Fits(s, e.w, lo, hi)
    ensures e.Centred? <==> !FailsFrom(s, n, e.w.first.at.turn, e.w.first.at.phase, lo, hi)
    ensures e.Centred? && e.w.first.at.phase != 1 ==> Close(s, e.w, lo, hi)
  {
    hide EnableSearch.FirstPassing, EnableSearch.BeginEdge, EnableSearch.EndEdge, EnableSearch.SecondFailure, EnableSearch.Tracked;
    hide EnableSearch.Pushed, EnableSearch.Centered, EnableSearch.ScannedOn, EnableSearch.NoneFound, FailsFrom, Decides, InGap, Fits, Local, Ahead;
    FailuresAreSeen(s, tr, e, start, a, b);
    var failing := if e.NoBegin? then e.failing else e.w.failing;
    lo, hi := CopyAhead(s, tr, start, failing, a, b);
    if InGap(s, lo, hi) { InGapCopy(s, lo, hi, a, b); }
    SteadyCopy(s, tr, lo, hi, a, b);
    if e.NoBegin? {
      NoneIsFound(s, tr, failing, e.dtaps, lo, hi);
    } else if e.NoEnd? {
      AnEndIsSeen(s, tr, e.w, lo, hi);
    } else {
      WindowFits(s, tr, e.w, lo, hi);
      if e.NilRange? {
        NotNil(s, tr, e.w, lo, hi);
      } else {
        OpenCentre(s, tr, e, start, n, lo, hi);
        EndsByCentre(s, tr, e, start, FailsFrom(s, n, e.w.first.at.turn, e.w.first.at.phase, lo, hi), lo, hi);
      }
    }
  }

  lemma OpenCentre(s: EnableSearch, tr: seq<Setting>, e: Ending, start: nat, n: nat, lo: int, hi: int)
    requires Geometry(s) && s.PerPhase(n) && Local(s, tr, lo, hi) && s.Ended(tr, e, start) && (e.Centred? || e.NoPass?) && Fits(s, e.w, lo, hi)
    ensures Decides(s, Target(e.w, e.cycles, e.p, e.d), FailsFrom(s, n, e.w.first.at.turn, e.w.first.at.phase, lo, hi), lo, hi)
    ensures e.w.first.at.phase != 1 && !FailsFrom(s, n, e.w.first.at.turn, e.w.first.at.phase, lo, hi) ==> Close(s, e.w, lo, hi)
  {
    hide BeginTap, EndTap, Rounded, Decides, EnableSearch.Ended, EnableSearch.Measured, EnableSearch.Centered, Local;
    CentredIsMeasured(s, tr, e, start);
    var f := Target(e.w, e.cycles, e.p, e.d);
    CentreIsRounded(s, e.w, e.mid, e.cycles, e.p, e.d);
    PosIs(s, e.w.first.at);
    if e.w.first.at.phase == 1 {
      CentreFromPhaseOne(s, tr, n, e.w, f, lo, hi);
    } else if e.w.first.at.phase < s.phaseMax {
      CentreFromPhase(s, tr, n, e.w, f, lo, hi);
    } else {
      CentreFromLast(s, tr, n, e.w, f, lo, hi);
    }
  }

  /**
   Against a steady interval at least a phase tap long, the search finds a centre if and only if the interval is not one of those that
   are missed. A centred window that does not begin at phase 1 has both edges within one tap of the interval's, and
   its middle lies in the interval.
   */
  lemma SteadySearch(s: EnableSearch, tr: seq<Setting>, e: Ending, start: nat, a: int, b: int, n: nat) returns (lo: int, hi: int)
    requires Geometry(s) && s.PerPhase(n) && Steady(s, tr, a, b) && s.Ended(tr, e, start)
    requires s.opa <= b - a && b + 2 * SlotDelay(s) < a + Turn(s)
    ensures e.Centred? <==> !Missed(s, n, a, b)
    ensures e.Centred? ==> Copy(s, lo, hi, a, b) && (Close(s, e.w, lo, hi) || (e.w.first.at.phase == 1 && Fits(s, e.w, lo, hi)))
  {
    hide EnableSearch.Ended, Steady, GapAt, GapFails, FailsFrom, Fits, Missed;
    assert a == a + Times(0, Turn(s)) && b == b + Times(0, Turn(s));
    if k: int :| GapAt(s, k, a, b) {
      lo, hi := GapSearch(s, tr, e, start, n, k, a, b);
      MissedFromGap(s, n, k, a, b);
    } else {
      lo, hi := OpenSearch(s, tr, e, start, n, a, b);
      FirstOfFits(s, e.w, lo, hi);
      MissedFromPlace(s, n, e.w.first.at.turn, e.w.first.at.phase, lo, hi);
      MissedCopy(s, n, lo, hi, a, b);
    }
  }

  lemma FirstOfFits(s: EnableSearch, w: Window, lo: int, hi: int)
    requires Fits(s, w, lo, hi)
    ensures FirstPlace(s, w.first.at.turn, w.first.at.phase, lo, hi)
  {
    PosIs(s, w.first.at);
  }

  /** An interval of three phase taps and a delay tap is never missed. */
  lemma LongIsNotMissed(s: EnableSearch, n: nat, a: int, b: int)
    requires Geometry(s) && s.PerPhase(n) && 3 * s.opa + s.dchain <= b - a
    ensures !Missed(s, n, a, b)
  {
    hide BeginTap, EndTap;
    s.ChainStep(n);
    if k: int :| GapAt(s, k, a, b) && GapFails(s, n, k, a, b) {
      SlotIsLong(s);
      TimesStep(k, SlotDelay(s));
      s.AtStep(0);
    }
  }

  /** A window that begins at phase 1 and reaches the next has its middle in the interval; with two more its begin edge is not moved. */
  lemma MiddleFromPhaseOne(s: EnableSearch, tr: seq<Setting>, w: Window, lo: int, hi: int)
    requires Geometry(s) && Fits(s, w, lo, hi) && s.Measured(tr, w) && w.first.at.phase == 1 && Pos(s, w.first.at) + s.opa <= hi
    ensures lo <= Middle(s, w) <= hi
    ensures Pos(s, w.first.at) + 2 * s.opa <= hi ==> w.begin == w.first
  {
    MiddleOf(s, tr, w);
  }

  /**
   So it is always centred, with its middle in the interval. With four phase taps the begin edge is never further from the
   interval's than the two taps around phase 0.
   */
  lemma LongIsCentred(s: EnableSearch, tr: seq<Setting>, e: Ending, start: nat, a: int, b: int) returns (lo: int, hi: int)
    requires Geometry(s) && Steady(s, tr, a, b) && s.Ended(tr, e, start)
    requires 3 * s.opa + s.dchain <= b - a && b + 2 * SlotDelay(s) < a + Turn(s)
    ensures e.Centred? && Copy(s, lo, hi, a, b) && lo <= Middle(s, e.w) <= hi
    ensures e.w.first.at.phase != 1 ==> Close(s, e.w, lo, hi)
    ensures 4 * s.opa <= b - a ==> lo <= Pos(s, e.w.begin.at) < lo + 2 * s.opa
  {
    hide EnableSearch.Ended, EnableSearch.Measured, EnableSearch.Centered, Steady, Missed;
    var n := LastTapBelow(s, s.delayMax);
    LongIsNotMissed(s, n, a, b);
    lo, hi := SteadySearch(s, tr, e, start, a, b, n);
    CentredIsMeasured(s, tr, e, start);
    if !Close(s, e.w, lo, hi) { MiddleFromPhaseOne(s, tr, e.w, lo, hi); }
  }
}
