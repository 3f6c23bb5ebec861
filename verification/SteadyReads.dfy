/**
 The DQS-enable search against a steady read window: whether a read passes depends only on the delay of the setting
 it is made at, and the delays that pass are one interval in every turn of the VFIFO.

 The lemmas speak of any run of the search, by its trace and its ending.
 */
module SteadyReads {
  import opened DqsEnable
  import opened IntegerArithmetic

  // ---- Delays and the interval ----

  /** Delay of a setting, counted from slot 0. */
  function Pos(s: EnableSearch, x: Setting): int { s.SettingDelay(x, 0) }

  /** Delay of one slot, and of a whole turn. */
  function SlotDelay(s: EnableSearch): int { s.At(s.phaseMax + 1) }

  function Turn(s: EnableSearch): int { Times(s.size, SlotDelay(s)) }

  /** The setting lies in the interval from a to b, some number of turns away. */
  ghost predicate Passing(s: EnableSearch, x: Setting, a: int, b: int)
  {
    exists k: int :: a <= Pos(s, x) + Times(k, Turn(s)) <= b
  }

  /** Every test of the run passed exactly if its setting is in the interval. */
  ghost predicate Steady(s: EnableSearch, tr: seq<Setting>, a: int, b: int)
  {
    forall n: nat :: n < |tr| ==> (s.verdict(n) <==> Passing(s, tr[n], a, b))
  }

  /** What the constructor demands of the chains. */
  ghost predicate Geometry(s: EnableSearch)
  {
    0 < s.size && 0 < s.phaseMax && 0 < s.dchain <= s.opa <= s.Chain(s.delayMax)
  }

  /** A copy of the interval, some turns away, at least a phase tap long and with two slots' delay between copies. */
  ghost predicate Copy(s: EnableSearch, lo: int, hi: int, a: int, b: int)
  {
    && s.opa <= hi - lo && hi + 2 * SlotDelay(s) < lo + Turn(s)
    && exists j: int :: lo == a + Times(j, Turn(s)) && hi == b + Times(j, Turn(s))
  }

  /** Between its neighbours, passing means being in the copy. */
  lemma PassingNear(s: EnableSearch, x: Setting, a: int, b: int, lo: int, hi: int)
    requires Copy(s, lo, hi, a, b) && hi - Turn(s) < Pos(s, x) < lo + Turn(s)
    ensures Passing(s, x, a, b) <==> lo <= Pos(s, x) <= hi
  {
    var t := Turn(s);
    var j: int :| lo == a + Times(j, t) && hi == b + Times(j, t);
    TimesAdd(j, -j, t);
    if lo <= Pos(s, x) <= hi {
      assert a <= Pos(s, x) + Times(-j, t) <= b;
    }
    if Passing(s, x, a, b) {
      var k: int :| a <= Pos(s, x) + Times(k, t) <= b;
      TimesAdd(k, j, t);
      if 1 <= k + j { TimesMonotonic(1, k + j, t); }
      if k + j <= -1 { TimesMonotonic(k + j, -1, t); }
      TimesStep(-1, t);
    }
  }

  /** Settings a whole number of turns apart read alike. */
  lemma PassingRepeats(s: EnableSearch, x: Setting, y: Setting, j: int, a: int, b: int)
    requires Pos(s, y) == Pos(s, x) + Times(j, Turn(s)) && Passing(s, x, a, b)
    ensures Passing(s, y, a, b)
  {
    var k: int :| a <= Pos(s, x) + Times(k, Turn(s)) <= b;
    TimesAdd(k - j, j, Turn(s));
    assert a <= Pos(s, y) + Times(k - j, Turn(s)) <= b;
  }

  /** The copy that comes next after a position that fails. */
  lemma NextCopy(s: EnableSearch, x: Setting, a: int, b: int) returns (lo: int, hi: int)
    requires s.opa <= b - a && b + 2 * SlotDelay(s) < a + Turn(s) && !Passing(s, x, a, b)
    requires 0 <= s.opa && 0 <= SlotDelay(s)
    ensures Copy(s, lo, hi, a, b) && hi - Turn(s) < Pos(s, x) < lo && hi < Pos(s, x) + Turn(s) && hi - lo == b - a
  {
    var t := Turn(s);
    var q := (Pos(s, x) - a) / t;
    QuotientBounds(Pos(s, x) - a, t);
    TimesStep(q, t);
    TimesAdd(q, -q, t);
    lo, hi := a + Times(q + 1, t), b + Times(q + 1, t);
    assert !(a <= Pos(s, x) + Times(-q, t) <= b);
  }

  // ---- Delays of settings ----

  lemma SlotTimes(s: EnableSearch, t: int, p: int)
    ensures s.At(s.Taps(t, p)) == Times(t, SlotDelay(s)) + s.At(p)
  {
    TimesAdd(Times(t, s.phaseMax + 1), p, s.opa);
    TimesAssociates(t, s.phaseMax + 1, s.opa);
  }

  /** A setting's delay in slots, phase taps and delay taps. */
  lemma PosIs(s: EnableSearch, x: Setting)
    ensures Pos(s, x) == Times(x.turn, SlotDelay(s)) + s.At(x.phase) + s.Chain(x.tap)
  {
    SlotTimes(s, x.turn, x.phase);
  }

  /** Counting from another slot takes that slot's delay off. */
  lemma PosFrom(s: EnableSearch, x: Setting, origin: int)
    ensures s.SettingDelay(x, origin) == Pos(s, x) - Times(origin, SlotDelay(s))
  {
    SlotTimes(s, x.turn, x.phase);
    SlotTimes(s, x.turn - origin, x.phase);
    TimesAdd(x.turn - origin, origin, SlotDelay(s));
  }

  lemma SlotIsLong(s: EnableSearch)
    requires Geometry(s)
    ensures 2 * s.opa <= SlotDelay(s) && s.At(s.phaseMax) + s.opa == SlotDelay(s) && s.opa <= s.At(s.phaseMax)
  {
    s.AtStep(s.phaseMax);
    s.AtPositive(s.phaseMax);
  }

  predicate Programmable(s: EnableSearch, x: Setting) { 1 <= x.phase <= s.phaseMax }

  /** One usable phase on is one phase tap later, two if phase 0 is passed over. */
  lemma NextPos(s: EnableSearch, x: Setting)
    requires Programmable(s, x) && 0 < s.phaseMax
    ensures Programmable(s, s.NextUsable(x)) && s.NextUsable(x).tap == x.tap
    ensures Pos(s, s.NextUsable(x)) == Pos(s, x) + if s.NextUsable(x).phase == 1 then 2 * s.opa else s.opa
  {
    s.BeyondIsLater(x, 0);
    UsablePos(s, s.Beyond(x));
  }

  lemma UsablePos(s: EnableSearch, x: Setting)
    requires 0 <= x.phase
    ensures Pos(s, s.Usable(x)) == Pos(s, x) + if x.phase == 0 then s.opa else 0
  {
    s.AtStep(s.Taps(x.turn, 0));
  }

  /** Where the scan for the end looks first. */
  lemma StartPos(s: EnableSearch, first: Setting)
    requires Programmable(s, first) && first.tap == 0 && 0 < s.phaseMax
    ensures var q := s.ScanStart(first);
      && 0 <= q.phase <= s.phaseMax && q.tap == 0 && Programmable(s, s.Usable(q)) && s.Usable(q).tap == 0
      && Pos(s, q) == Pos(s, first) + (if first.phase == 1 then 2 * s.opa else s.opa)
      && Pos(s, s.Usable(q)) == Pos(s, q) + (if q.phase == 0 then s.opa else 0)
      && (first.phase == 1 && q.phase == 0 <==> first.phase == 1 && s.phaseMax == 2)
  {
    s.BeyondIsLater(first, 0);
    if first.phase == 1 { s.BeyondIsLater(s.Beyond(first), 0); }
    UsablePos(s, s.ScanStart(first));
  }

  /** Delay of phase tap p of slot k, without delay taps. */
  function Place(s: EnableSearch, k: int, p: int): int { Times(k, SlotDelay(s)) + s.At(p) }

  /** What lies between a usable phase and the one before. */
  function StepTo(s: EnableSearch, p: int): int { if p == 1 then 2 * s.opa else s.opa }

  /** Usable phases in order are at least that far apart. */
  lemma PlaceOrder(s: EnableSearch, t: int, p: int, k: int, q: int)
    requires Geometry(s) && 1 <= p <= s.phaseMax && 1 <= q <= s.phaseMax && (t < k || (t == k && p < q))
    ensures Place(s, t, p) + StepTo(s, q) <= Place(s, k, q)
  {
    if t == k {
      TimesMonotonic(p, q - 1, s.opa);
      s.AtStep(q - 1);
    } else {
      SlotIsLong(s);
      TimesMonotonic(t + 1, k, SlotDelay(s));
      TimesStep(t, SlotDelay(s));
      TimesMonotonic(p, s.phaseMax, s.opa);
      s.AtPositive(q);
    }
  }

  lemma PlacesInOrder(s: EnableSearch, t: int, p: int, k: int, q: int)
    requires Geometry(s) && 1 <= p <= s.phaseMax && 1 <= q <= s.phaseMax && (t < k || (t == k && p <= q))
    ensures Place(s, t, p) <= Place(s, k, q)
  {
    if t < k || p < q { PlaceOrder(s, t, p, k, q); }
  }

  // ---- Walks over the phases ----

  /** Around one copy of the interval, the tests passed exactly if they were in it. */
  ghost predicate Local(s: EnableSearch, tr: seq<Setting>, lo: int, hi: int)
  {
    && s.opa <= hi - lo && hi + 2 * SlotDelay(s) < lo + Turn(s)
    && forall n: nat :: n < |tr| && hi - Turn(s) < Pos(s, tr[n]) < lo + Turn(s) ==> (s.verdict(n) <==> lo <= Pos(s, tr[n]) <= hi)
  }

  lemma LocalCopy(s: EnableSearch, tr: seq<Setting>, a: int, b: int, lo: int, hi: int)
    requires Steady(s, tr, a, b) && Copy(s, lo, hi, a, b)
    ensures Local(s, tr, lo, hi)
  {
    forall n: nat | n < |tr| && hi - Turn(s) < Pos(s, tr[n]) < lo + Turn(s) ensures s.verdict(n) <==> lo <= Pos(s, tr[n]) <= hi {
      PassingNear(s, tr[n], a, b, lo, hi);
    }
  }

  /** The interval lies between the last phase of slot k and the first usable one of the next. */
  predicate GapAt(s: EnableSearch, k: int, lo: int, hi: int) { Place(s, k, s.phaseMax) < lo && hi < Place(s, k + 1, 1) }

  ghost predicate InGap(s: EnableSearch, lo: int, hi: int) { exists k: int :: GapAt(s, k, lo, hi) }

  /** From a phase before the interval the next step cannot pass over it, unless it is in a gap. */
  lemma NoStepOver(s: EnableSearch, x: Setting, lo: int, hi: int)
    requires Geometry(s) && Programmable(s, x) && x.tap == 0 && Pos(s, x) < lo && s.opa <= hi - lo && !InGap(s, lo, hi)
    ensures Pos(s, s.NextUsable(x)) <= hi
  {
    NextPos(s, x);
    PosIs(s, x);
    if s.NextUsable(x).phase == 1 {
      PosIs(s, s.NextUsable(x));
      assert x.phase == s.phaseMax && !GapAt(s, x.turn, lo, hi);
    }
  }

  /** Phases before the interval, one failing after the other: the next one is not past it. */
  lemma {:induction false} Approaches(s: EnableSearch, tr: seq<Setting>, lo: int, hi: int, from: nat, to: nat)
    requires Geometry(s) && Local(s, tr, lo, hi) && !InGap(s, lo, hi)
    requires s.Consecutive(tr, from, to) && Programmable(s, tr[from]) && tr[from].tap == 0
    requires hi - Turn(s) < Pos(s, tr[from]) < lo && forall n :: from <= n < to ==> !s.verdict(n)
    ensures Programmable(s, tr[to]) && tr[to].tap == 0
    ensures Pos(s, tr[from]) <= Pos(s, tr[to]) <= hi
    ensures from < to ==> Programmable(s, tr[to - 1]) && Pos(s, tr[to - 1]) < lo && tr[to] == s.NextUsable(tr[to - 1])
    ensures !s.verdict(to) ==> Pos(s, tr[to]) < lo
  {
    SlotIsLong(s);
    if from < to {
      Approaches(s, tr, lo, hi, from, to - 1);
      NextPos(s, tr[to - 1]);
      NoStepOver(s, tr[to - 1], lo, hi);
    }
  }

  /** Phases in the interval, one passing after the other: the next one is at most one step past it. */
  lemma {:induction false} StaysIn(s: EnableSearch, tr: seq<Setting>, lo: int, hi: int, from: nat, to: nat)
    requires Geometry(s) && Local(s, tr, lo, hi) && s.Consecutive(tr, from, to) && Programmable(s, tr[from])
    requires lo <= Pos(s, tr[from]) <= hi && forall n :: from <= n < to ==> s.verdict(n)
    ensures Programmable(s, tr[to]) && tr[to].tap == tr[from].tap
    ensures Pos(s, tr[from]) <= Pos(s, tr[to]) <= hi + 2 * s.opa
    ensures from < to ==> Programmable(s, tr[to - 1]) && Pos(s, tr[to - 1]) <= hi && tr[to] == s.NextUsable(tr[to - 1])
    ensures from < to ==> Pos(s, tr[from]) <= Pos(s, tr[to - 1]) && tr[to - 1].tap == tr[from].tap
    ensures s.verdict(to) <==> Pos(s, tr[to]) <= hi
  {
    SlotIsLong(s);
    if from < to {
      StaysIn(s, tr, lo, hi, from, to - 1);
      NextPos(s, tr[to - 1]);
    }
  }

  /** No two phases have the same successor. */
  lemma NextIsInjective(s: EnableSearch, x: Setting, y: Setting)
    requires Programmable(s, x) && Programmable(s, y) && s.NextUsable(x) == s.NextUsable(y)
    ensures x == y
  {
  }

  /** A sweep ends one slot short of a turn, at the last phase. */
  lemma LastOfSweep(s: EnableSearch, tr: seq<Setting>, from: nat, t: int)
    requires Geometry(s) && s.Sweep(tr, from, t, 0)
    ensures Pos(s, tr[from + s.PerSweep() - 1]) == Pos(s, tr[from]) + Turn(s) - 2 * s.opa
    ensures Programmable(s, tr[from + s.PerSweep() - 1]) && tr[from + s.PerSweep() - 1] == Setting(t + s.size - 1, s.phaseMax, 0)
  {
    var k := s.PerSweep() - 1;
    Counted(s, tr, from, from + k);
    var last := tr[from + k];
    TimesAdd(t, s.size, s.phaseMax);
    TimesStep(t + s.size - 1, s.phaseMax);
    if last.turn < t + s.size - 1 { RowsDoNotOverlap(last.turn, last.phase - 1, t + s.size - 1, s.phaseMax - 1, s.phaseMax); }
    if t + s.size - 1 < last.turn { RowsDoNotOverlap(t + s.size - 1, s.phaseMax - 1, last.turn, last.phase - 1, s.phaseMax); }
    PosIs(s, tr[from]);
    PosIs(s, last);
    TimesAdd(t, s.size, SlotDelay(s));
    TimesStep(t + s.size - 1, SlotDelay(s));
    SlotIsLong(s);
    s.AtStep(0);
  }

  /** Phases count up one by one. */
  lemma {:induction false} Counted(s: EnableSearch, tr: seq<Setting>, from: nat, to: nat)
    requires 0 < s.phaseMax && s.Consecutive(tr, from, to) && Programmable(s, tr[from])
    ensures Programmable(s, tr[to]) && tr[to].tap == tr[from].tap
    ensures Times(tr[to].turn, s.phaseMax) + tr[to].phase == Times(tr[from].turn, s.phaseMax) + tr[from].phase + (to - from)
  {
    if from < to {
      Counted(s, tr, from, to - 1);
      TimesStep(tr[to - 1].turn, s.phaseMax);
    }
  }

  // ---- The begin edge ----

  /** The copy that comes right after the setting at which the sweep starts, which fails. */
  ghost predicate Ahead(s: EnableSearch, start: Setting, lo: int, hi: int)
  {
    start.phase == 1 && start.tap == 0 && hi - Turn(s) < Pos(s, start) < lo && hi < Pos(s, start) + Turn(s)
  }

  /** A sweep without delay cannot miss the interval. */
  lemma SweepMeets(s: EnableSearch, tr: seq<Setting>, lo: int, hi: int, from: nat)
    requires Geometry(s) && Local(s, tr, lo, hi) && !InGap(s, lo, hi)
    requires from < |tr| && Ahead(s, tr[from], lo, hi) && s.Sweep(tr, from, tr[from].turn, 0)
    ensures exists n :: from <= n < from + s.PerSweep() && s.verdict(n)
  {
    var last := from + s.PerSweep() - 1;
    if forall n :: from <= n <= last ==> !s.verdict(n) {
      Approaches(s, tr, lo, hi, from, last);
      LastOfSweep(s, tr, from, tr[from].turn);
      NoStepOver(s, tr[last], lo, hi);
      NextPos(s, tr[last]);
    }
  }

  /** The first passing setting is the first phase in the interval, without delay. */
  lemma FirstAt(s: EnableSearch, tr: seq<Setting>, failing: nat, first: Edge, origin: int, lo: int, hi: int)
    requires Geometry(s) && Local(s, tr, lo, hi) && !InGap(s, lo, hi) && s.FirstPassing(tr, failing, first, origin)
    requires Ahead(s, Setting(tr[failing - 1].turn, 1, 0), lo, hi)
    ensures first.at.tap == 0 && origin == tr[failing - 1].turn && Programmable(s, first.at)
    ensures lo <= Pos(s, first.at) <= hi && Pos(s, first.at) - StepTo(s, first.at.phase) < lo
  {
    if 0 < first.at.tap {
      assert s.Sweep(tr, failing + Times(0, s.PerSweep()), tr[failing - 1].turn + Times(0, s.size), 0);
      SweepMeets(s, tr, lo, hi, failing);
      TimesMonotonic(1, first.at.tap, s.PerSweep());
    } else {
      assert tr[failing] == Setting(origin, 1, 0);
      Approaches(s, tr, lo, hi, failing, first.test);
      SlotIsLong(s);
      assert first.test != failing;
      NextPos(s, tr[first.test - 1]);
    }
  }

  /** Some whole number of delay taps is the largest below a phase tap. */
  lemma {:induction false} LastTapBelow(s: EnableSearch, n: nat) returns (k: nat)
    requires 0 < s.opa <= s.Chain(n)
    ensures s.PerPhase(k) && k < n
  {
    if s.opa <= s.Chain(n - 1) { k := LastTapBelow(s, n - 1); } else { k := n - 1; }
  }

  /** The refined begin edge is in the interval, and within one tap of its begin unless the window begins at phase 1. */
  lemma RefinedAt(s: EnableSearch, tr: seq<Setting>, first: Edge, r: Edge, lo: int, hi: int)
    requires Geometry(s) && Local(s, tr, lo, hi) && s.RefinedEdge(tr, first, r) && first.at.tap == 0 && Programmable(s, first.at)
    requires first.test < |tr| && tr[first.test] == first.at && lo <= Pos(s, first.at) <= hi
    requires Pos(s, first.at) - StepTo(s, first.at.phase) < lo
    ensures lo <= Pos(s, r.at) <= Pos(s, first.at) && (first.at.phase == 1 ==> r == first)
    ensures first.at.phase != 1 ==> Pos(s, r.at) - s.dchain < lo
  {
    SlotIsLong(s);
    if first.at.phase != 1 {
      s.BeyondIsLater(first.at.(phase := first.at.phase - 1), 0);
      if r == first {
        var k := LastTapBelow(s, s.delayMax);
        assert s.TapFailed(tr, first, k);
        TapAt(s, tr, first, k);
      } else {
        TapAt(s, tr, first, r.at.tap);
        if 0 < r.at.tap {
          assert s.TapFailed(tr, first, r.at.tap - 1);
          TapAt(s, tr, first, r.at.tap - 1);
          s.ChainStep(r.at.tap - 1);
        }
      }
    }
  }

  /** Where tap k of the phase before the first passing setting lies. */
  lemma TapAt(s: EnableSearch, tr: seq<Setting>, first: Edge, k: int)
    requires Geometry(s) && 2 <= first.at.phase <= s.phaseMax && first.at.tap == 0 && 0 <= k
    ensures Pos(s, Setting(first.at.turn, first.at.phase - 1, k)) == Pos(s, first.at) - s.opa + s.Chain(k) && 0 <= s.Chain(k)
  {
    s.BeyondIsLater(first.at.(phase := first.at.phase - 1), 0);
    s.ChainNonNegative(k);
  }

  // ---- The end edge ----

  /** The window begins with the first phase in the interval. */
  ghost predicate BeginsIn(s: EnableSearch, w: Window, lo: int, hi: int)
  {
    && w.first.at.tap == 0 && Programmable(s, w.first.at) && lo <= Pos(s, w.first.at) <= hi
    && Pos(s, w.first.at) - StepTo(s, w.first.at.phase) < lo
  }

  /** How far past the first passing setting the scan looks first. */
  function LookStep(s: EnableSearch, first: Setting): int { if first.phase == 1 then 2 * s.opa else s.opa }

  /** The scan's first look is at a usable phase, and beyond the interval. */
  predicate Leaves(s: EnableSearch, first: Setting, hi: int)
  {
    (if first.phase == 1 then s.phaseMax != 2 else first.phase < s.phaseMax) && hi < Pos(s, first) + LookStep(s, first)
  }

  /** Exactly then a steady window's begin edge is moved. */
  lemma FirstLook(s: EnableSearch, tr: seq<Setting>, w: Window, lo: int, hi: int)
    requires Geometry(s) && Local(s, tr, lo, hi) && BeginsIn(s, w, lo, hi) && s.BeginEdge(tr, w)
    requires w.scan < |tr| && tr[w.scan] == s.Usable(s.ScanStart(w.first.at))
    ensures Programmable(s, tr[w.scan]) && tr[w.scan].tap == 0
    ensures Pos(s, w.first.at) + s.opa <= Pos(s, tr[w.scan]) && (s.verdict(w.scan) <==> Pos(s, tr[w.scan]) <= hi)
    ensures w.moved <==> Leaves(s, w.first.at, hi)
    ensures w.moved ==> Pos(s, tr[w.scan]) == Pos(s, w.first.at) + LookStep(s, w.first.at)
    ensures w.first.at.phase == s.phaseMax != 1 ==> Pos(s, tr[w.scan]) == Pos(s, w.first.at) + 2 * s.opa
    ensures !w.moved && !s.verdict(w.scan) ==> s.ScanStart(w.first.at).phase == 0
  {
    SlotIsLong(s);
    StartPos(s, w.first.at);
  }

  /** How far the scan gets at least when the begin edge stays. */
  function Reach(s: EnableSearch, first: Setting, hi: int): int
  {
    if first.phase == 1 || first.phase < s.phaseMax then s.opa else if Pos(s, first) + 2 * s.opa <= hi then 2 * s.opa else 0
  }

  /** Where the extension starts: in the interval, one step before its end, unless the begin edge was moved or both edges sit at phase 1 of two. */
  lemma EndPhaseAt(s: EnableSearch, tr: seq<Setting>, w: Window, end: Setting, lo: int, hi: int)
    requires Geometry(s) && Local(s, tr, lo, hi) && BeginsIn(s, w, lo, hi) && s.BeginEdge(tr, w) && s.EndPhase(tr, w, end)
    ensures Programmable(s, end) && Pos(s, tr[w.stop]) == Pos(s, end) + if tr[w.stop].phase == 1 then 2 * s.opa else s.opa
    ensures w.moved <==> Leaves(s, w.first.at, hi)
    ensures w.moved ==> Pos(s, end) == Pos(s, w.first.at) + LookStep(s, w.first.at) == Pos(s, w.begin.at)
    ensures !w.moved ==> w.begin == w.refined
    ensures !w.moved ==> Pos(s, w.first.at) + Reach(s, w.first.at, hi) <= Pos(s, end) && hi < Pos(s, tr[w.stop])
    ensures !w.moved && w.first.at.phase == s.phaseMax != 1 && hi < Pos(s, w.first.at) + 2 * s.opa ==> end == w.first.at
    ensures !w.moved && hi < Pos(s, end) ==>
      w.first.at.phase == 1 && s.phaseMax == 2 && Pos(s, end) == Pos(s, w.first.at) + s.opa
  {
    hide EnableSearch.RefinedEdge, Leaves;
    SlotIsLong(s);
    FirstLook(s, tr, w, lo, hi);
    StartPos(s, w.first.at);
    NextPos(s, end);
    if w.moved {
      MovedStops(s, tr, w, lo, hi);
      NextIsInjective(s, end, tr[w.scan]);
    } else if w.scan < w.stop {
      StaysIn(s, tr, lo, hi, w.scan, w.stop);
      NextIsInjective(s, end, tr[w.stop - 1]);
    }
  }

  /** After a moved begin edge the scan stops at the very next phase. */
  lemma MovedStops(s: EnableSearch, tr: seq<Setting>, w: Window, lo: int, hi: int)
    requires Geometry(s) && Local(s, tr, lo, hi) && s.Scanned(tr, w, w.stop) && w.scan < w.stop && Programmable(s, tr[w.scan])
    requires lo <= hi < Pos(s, tr[w.scan]) <= hi + 2 * s.opa
    ensures w.stop == w.scan + 1 && tr[w.stop] == s.NextUsable(tr[w.scan])
  {
    NextFails(s, tr, w.scan, w.stop, lo, hi);
  }

  lemma NextFails(s: EnableSearch, tr: seq<Setting>, n: nat, upTo: nat, lo: int, hi: int)
    requires Geometry(s) && Local(s, tr, lo, hi) && s.Consecutive(tr, n, upTo) && n < upTo && Programmable(s, tr[n])
    requires lo <= hi < Pos(s, tr[n]) <= hi + 2 * s.opa
    ensures !s.verdict(n + 1) && tr[n + 1] == s.NextUsable(tr[n])
  {
    SlotIsLong(s);
    NextPos(s, tr[n]);
  }

  /** The scan cannot go on for a whole turn. */
  lemma ScanStops(s: EnableSearch, tr: seq<Setting>, w: Window, lo: int, hi: int)
    requires Geometry(s) && Local(s, tr, lo, hi) && BeginsIn(s, w, lo, hi) && s.BeginEdge(tr, w)
    requires Ahead(s, Setting(w.origin, 1, 0), lo, hi) && w.origin <= w.first.at.turn < w.origin + s.size
    ensures !s.ScannedOn(tr, w)
  {
    if s.ScannedOn(tr, w) {
      SlotIsLong(s);
      FirstLook(s, tr, w, lo, hi);
      StartPos(s, w.first.at);
      var last := |tr| - 1;
      Counted(s, tr, w.scan, last);
      LastIsFar(s, tr[last], w.origin);
      if w.moved {
        if w.scan < last { NextFails(s, tr, w.scan, last, lo, hi); }
      } else {
        StaysIn(s, tr, lo, hi, w.scan, last);
      }
    }
  }

  lemma LastIsFar(s: EnableSearch, last: Setting, origin: int)
    requires Geometry(s) && last.phase == s.phaseMax && last.tap == 0 && origin + s.size <= last.turn
    ensures Pos(s, Setting(origin, 1, 0)) + Turn(s) <= Pos(s, last)
  {
    PosIs(s, last);
    PosIs(s, Setting(origin, 1, 0));
    TimesAdd(origin, s.size, SlotDelay(s));
    SlotIsLong(s);
    TimesMonotonic(origin + s.size, last.turn, SlotDelay(s));
    s.AtStep(0);
  }

  /** The extension ends within one tap of the interval's end, or with the chain; outside the interval it does not start. */
  lemma ExtensionAt(s: EnableSearch, tr: seq<Setting>, w: Window, lo: int, hi: int)
    requires Geometry(s) && Local(s, tr, lo, hi) && s.EndEdge(tr, w) && w.first.at.tap <= s.delayMax
    requires lo <= Pos(s, w.end.(tap := w.first.at.tap)) <= hi + 2 * s.opa
    ensures hi < Pos(s, w.end.(tap := w.first.at.tap)) ==> w.taps == w.first.at.tap
    ensures Pos(s, w.end.(tap := w.first.at.tap)) <= hi ==>
      && w.first.at.tap < w.taps && Pos(s, w.end.(tap := w.first.at.tap)) <= Pos(s, w.end) <= hi
      && (if w.taps <= s.delayMax then hi < Pos(s, w.end) + s.dchain else w.end.tap == s.delayMax)
  {
    SlotIsLong(s);
    var d0 := w.first.at.tap;
    assert tr[w.ext] == w.end.(tap := d0) && (s.verdict(w.ext) <==> d0 < w.taps);
    if d0 < w.taps {
      TapsIn(s, tr, w, lo, hi, w.taps - 1);
      s.ChainStep(w.taps - 1);
    }
  }

  lemma {:induction false} TapsIn(s: EnableSearch, tr: seq<Setting>, w: Window, lo: int, hi: int, k: nat)
    requires Geometry(s) && Local(s, tr, lo, hi) && s.EndEdge(tr, w) && w.first.at.tap <= k < w.taps
    requires lo <= Pos(s, w.end.(tap := w.first.at.tap)) <= hi
    ensures Pos(s, w.end.(tap := k)) == Pos(s, w.end.(tap := w.first.at.tap)) + s.Chain(k) - s.Chain(w.first.at.tap) <= hi
    ensures s.Chain(w.first.at.tap) <= s.Chain(k)
  {
    SlotIsLong(s);
    if w.first.at.tap < k {
      TapsIn(s, tr, w, lo, hi, k - 1);
      s.ChainStep(k - 1);
    }
    assert tr[w.ext + (k - w.first.at.tap)] == w.end.(tap := k);
  }

  // ---- The whole window ----

  /** A window that begins at phase 1 of two phases and reaches no further. */
  predicate OnlyPhaseOne(s: EnableSearch, first: Setting, hi: int)
  {
    first.phase == 1 && s.phaseMax == 2 && hi < Pos(s, first) + s.opa
  }

  /** The measured window and the interval it is a window on. */
  ghost predicate Fits(s: EnableSearch, w: Window, lo: int, hi: int)
  {
    var x := Pos(s, w.first.at);
    && BeginsIn(s, w, lo, hi) && (w.moved <==> Leaves(s, w.first.at, hi))
    && if w.moved then
         Pos(s, w.begin.at) == Pos(s, w.end) == x + LookStep(s, w.first.at)
       else if OnlyPhaseOne(s, w.first.at, hi) then
         Pos(s, w.begin.at) == x && Pos(s, w.end) == x + s.opa
       else
         && lo <= Pos(s, w.begin.at) <= x && (if w.first.at.phase == 1 then w.begin == w.first else Pos(s, w.begin.at) - s.dchain < lo)
         && x + Reach(s, w.first.at, hi) <= Pos(s, w.end) <= hi
         && (if w.taps <= s.delayMax then hi < Pos(s, w.end) + s.dchain else w.end.tap == s.delayMax)
         && (w.first.at.phase == s.phaseMax != 1 && hi < x + 2 * s.opa ==> w.end.(tap := 0) == w.first.at)
  }

  lemma WindowFits(s: EnableSearch, tr: seq<Setting>, w: Window, lo: int, hi: int)
    requires Geometry(s) && Local(s, tr, lo, hi) && !InGap(s, lo, hi) && s.Measured(tr, w)
    requires Ahead(s, Setting(tr[w.failing - 1].turn, 1, 0), lo, hi)
    ensures Fits(s, w, lo, hi) && w.origin == tr[w.failing - 1].turn
  {
    hide EnableSearch.Sweeps, EnableSearch.Consecutive, EnableSearch.RefinedEdge, Local, EnableSearch.EndPhase, InGap;
    FirstAt(s, tr, w.failing, w.first, w.origin, lo, hi);
    RefinedAt(s, tr, w.first, w.refined, lo, hi);
    var e0 := w.end.(tap := 0);
    EndPhaseAt(s, tr, w, e0, lo, hi);
    ExtensionAt(s, tr, w, lo, hi);
    PosIs(s, w.end);
    PosIs(s, e0);
  }
}
