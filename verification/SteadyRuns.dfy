/** Runs of the DQS-enable search against steady intervals it misses, with the shipped geometry. */
module SteadyRuns {
  import opened DqsEnable
  import opened IntegerArithmetic
  import opened SteadyReads
  import opened SteadySearch

  predicate Shipped(s: EnableSearch) { s.size == 16 && s.phaseMax == 7 && s.delayMax == 31 && s.opa == 312 && s.dchain == 25 }

  /** Every setting of the sweeps has a programmable phase and less delay than a phase tap. */
  lemma SweptSettings(s: EnableSearch, tr: seq<Setting>, failing: nat, dtaps: nat, n: nat)
    requires Geometry(s) && s.NoneFound(tr, failing, dtaps) && failing <= n < |tr|
    ensures Programmable(s, tr[n]) && 0 <= tr[n].tap <= dtaps
  {
    var d := SweepOf(n - failing, s.PerSweep(), dtaps + 1);
    var from := failing + Times(d, s.PerSweep());
    assert s.Sweep(tr, from, tr[failing - 1].turn + Times(d, s.size), d);
    Counted(s, tr, from, n);
  }

  /** The sweep a test belongs to. */
  lemma {:induction false} SweepOf(m: nat, k: int, count: nat) returns (d: nat)
    requires m < Times(count, k)
    ensures d < count && Times(d, k) <= m < Times(d, k) + k
  {
    if Times(count - 1, k) <= m { d := count - 1; } else { d := SweepOf(m, k, count - 1); }
  }

  /** An interval between the last setting of a slot and the first of the next is never seen. */
  lemma GapIsNeverSeen(s: EnableSearch, tr: seq<Setting>, e: Ending, a: int, b: int)
    requires Geometry(s) && s.Ended(tr, e, 0) && e.NoBegin? && forall n: nat :: !s.verdict(n)
    requires s.At(s.phaseMax) + s.Chain(e.dtaps) < a <= b < SlotDelay(s) + s.opa
    ensures Steady(s, tr, a, b)
  {
    forall n: nat | n < |tr| ensures !Passing(s, tr[n], a, b) {
      if n < e.failing {
        assert tr[n] == Setting(n, 1, 0);
      } else {
        SweptSettings(s, tr, e.failing, e.dtaps, n);
      }
      var x := tr[n];
      TimesMonotonic(1, x.phase, s.opa);
      TimesMonotonic(x.phase, s.phaseMax, s.opa);
      TimesMonotonic(x.tap, e.dtaps, s.dchain);
      s.ChainNonNegative(x.tap);
      s.ChainNonNegative(e.dtaps);
      s.AtStep(0);
      TimesStep(0, SlotDelay(s));
      OutsideInSlot(s, x, 0, a, b);
    }
  }

  lemma NothingPasses(s: EnableSearch, tr: seq<Setting>, e: Ending)
    requires Geometry(s) && s.Ended(tr, e, 0) && 2 <= s.size && forall n: nat :: !s.verdict(n)
    ensures e.NoBegin?
  {
    hide EnableSearch.BeginEdge, EnableSearch.EndEdge, EnableSearch.ScannedOn, EnableSearch.Sweeps;
    if e.NoFailure? { TwoFailures(s, 0, 0, 1, |tr|); }
  }

  /**
   With the shipped geometry an interval longer than a phase tap can lie where no setting of the sweeps does. The search
   finds no passing read.
   */
  method NarrowIntervalIsMissed() returns (s: EnableSearch, ok: bool)
    ensures Shipped(s) && !ok && Steady(s, s.trace, 2485, 2807)
  {
    ChainOf31();
    s := new EnableSearch(16, 7, 31, 312, 25, 0, n => false);
    var v, dtaps;
    ghost var e;
    ok, v, dtaps, e := s.FindDqsEnPhase();
    NothingPasses(s, s.trace, e);
    s.DelaysAreProducts(7);
    s.DelaysAreProducts(8);
    s.DelaysAreProducts(e.dtaps);
    s.DelaysAreProducts(e.dtaps + 1);
    GapIsNeverSeen(s, s.trace, e, 2485, 2807);
  }

  lemma ShippedPos(s: EnableSearch, x: Setting)
    requires Shipped(s)
    ensures Pos(s, x) == 2496 * x.turn + 312 * x.phase + 25 * x.tap && SlotDelay(s) == 2496 && Turn(s) == 39936
    ensures InSlot(s, x) == 312 * x.phase + 25 * x.tap
  {
    PosIs(s, x);
    s.DelaysAreProducts(8);
    s.DelaysAreProducts(x.phase);
    s.DelaysAreProducts(x.tap);
    TimesIsProduct(x.turn, 2496);
    TimesIsProduct(16, 2496);
  }

  /** Of all tests only number 9 passes. */
  ghost predicate OnlyNinePasses(s: EnableSearch) { forall n: nat :: s.verdict(n) <==> n == 9 }

  /** The first passing setting is then phase 1 of slot 2, and the scan's first look moves the begin edge to phase 3. */
  lemma NineIsFirst(s: EnableSearch, tr: seq<Setting>, w: Window)
    requires Shipped(s) && OnlyNinePasses(s) && s.SecondFailure(tr, 0, w.failing) && s.Begun(tr, w)
    ensures w.failing == 2 && w.origin == 1 && w.first == Edge(Setting(2, 1, 0), 9)
    ensures s.Consecutive(tr, 2, 9) && tr[2] == Setting(1, 1, 0) && s.ScanStart(w.first.at) == Setting(2, 3, 0)
  {
    assert s.Failures(0, 1) == 1 && s.Failures(0, 2) == 2;
    if 2 < w.failing { s.FailuresGrow(0, 2, w.failing - 1); }
    assert tr[1] == Setting(1, 1, 0);
    TimesIsProduct(16, 7);
    TimesIsProduct(w.first.at.tap, 112);
    TimesIsProduct(w.first.at.turn - w.origin, 7);
  }

  /** The scan then stops at phase 4, the extension at once, and both edges are recorded alike. */
  lemma NineIsNil(s: EnableSearch, tr: seq<Setting>, w: Window)
    requires Shipped(s) && OnlyNinePasses(s) && s.SecondFailure(tr, 0, w.failing) && s.Measured(tr, w)
    ensures w.first.at.tap == 0 && w.scan == 10 && w.stop == 11 && w.ext == 12 && w.taps == 0 && w.moved && w.end == Setting(2, 3, 0)
    ensures tr[10] == tr[12] == Setting(2, 3, 0) && tr[11] == Setting(2, 4, 0) && w.workBgn == w.workEnd == 3120
  {
    NineIsFirst(s, tr, w);
    assert !s.verdict(10) && !s.verdict(11) && !s.verdict(12);
    PosFrom(s, Setting(2, 3, 0), 1);
    ShippedPos(s, Setting(2, 3, 0));
    TimesIsProduct(1, 2496);
    assert s.NextUsable(w.end.(tap := 0)) == tr[w.stop];
  }

  lemma NineIsNotEndless(s: EnableSearch, tr: seq<Setting>, w: Window)
    requires Shipped(s) && OnlyNinePasses(s) && s.SecondFailure(tr, 0, w.failing) && s.Begun(tr, w)
    ensures !s.ScannedOn(tr, w)
  {
    NineIsFirst(s, tr, w);
    assert !s.verdict(11);
  }

  lemma NinePushFails(s: EnableSearch, tr: seq<Setting>, w: Window, p: int, d: int, from: nat)
    requires Shipped(s) && OnlyNinePasses(s) && s.SecondFailure(tr, 0, w.failing) && s.Measured(tr, w)
    requires s.Tracked(tr, w, from) && s.Pushed(tr, from, |tr| - 1, p, d)
    ensures 0 < |tr| && !s.verdict(|tr| - 1)
  {
    hide EnableSearch.Measured;
    NineIsNil(s, tr, w);
  }

  /** So the search ends on a failing push. */
  lemma NineEndsWithoutPass(s: EnableSearch, tr: seq<Setting>, e: Ending)
    requires Shipped(s) && OnlyNinePasses(s) && s.Ended(tr, e, 0)
    ensures e.NoPass?
  {
    hide EnableSearch.Measured, EnableSearch.Begun, EnableSearch.ScannedOn, EnableSearch.Sweeps, EnableSearch.Centered;
    assert s.verdict(9);
    if 2 <= |tr| { TwoFailures(s, 0, 0, 1, |tr|); }
    match e
    case NoFailure =>
    case NoBegin(failing, dtaps) =>
      assert s.Failures(0, 1) == 1 && s.Failures(0, 2) == 2;
      if 2 < failing { s.FailuresGrow(0, 2, failing - 1); }
      TimesIsProduct(16, 7);
      TimesMonotonic(1, dtaps + 1, 112);
    case NoEnd(w) => NineIsNotEndless(s, tr, w);
    case NilRange(w) => NineIsNil(s, tr, w);
    case Centred(w, _, _, p, d, from) => NinePushFails(s, tr, w, p, d, from);
    case NoPass(_, _, _, _, _, _) =>
  }

  /** Every setting of that run but the passing one lies outside an interval around it. */
  lemma NineIsSteady(s: EnableSearch, tr: seq<Setting>, e: Ending)
    requires Shipped(s) && Geometry(s) && OnlyNinePasses(s) && s.Ended(tr, e, 0) && e.NoPass?
    ensures Steady(s, tr, 4681, 5330)
  {
    hide EnableSearch.EndEdge, EnableSearch.BeginEdge, EnableSearch.FirstPassing;
    var w := e.w;
    NineIsFirst(s, tr, w);
    NineIsNil(s, tr, w);
    assert tr[9] == Setting(2, 1, 0) by { NineAt(s, tr, 9); }
    ShippedPos(s, tr[9]);
    forall n: nat | n < |tr| ensures s.verdict(n) <==> Passing(s, tr[n], 4681, 5330) {
      ShippedPos(s, tr[n]);
      if 2 <= n <= 9 { NineAt(s, tr, n); }
      if e.from <= n {
        PushedAt(s, e, tr[n]);
        assert tr[n] == Setting(tr[e.from].turn + (n - e.from), e.p, e.d);
        TimesIsProduct(1, 2496);
        TimesIsProduct(2, 2496);
        OutsideInSlot(s, tr[n], 1, 4681, 5330);
      } else {
        assert 4681 == 4681 + Times(0, Turn(s)) && 5330 == 5330 + Times(0, Turn(s));
        PassingNear(s, tr[n], 4681, 5330, 4681, 5330);
      }
    }
  }

  /** The settings of the sweep up to the first passing one. */
  lemma {:induction false} NineAt(s: EnableSearch, tr: seq<Setting>, n: nat)
    requires Shipped(s) && s.Consecutive(tr, 2, 9) && tr[2] == Setting(1, 1, 0) && 2 <= n <= 9
    ensures tr[n] == if n == 9 then Setting(2, 1, 0) else Setting(1, n - 1, 0)
  {
    if 2 < n { NineAt(s, tr, n - 1); }
  }

  /** The programmed centre of that run is phase 1 with 13 delay taps. */
  lemma PushedAt(s: EnableSearch, e: Ending, x: Setting)
    requires Shipped(s) && e.NoPass? && e.w.workBgn == e.w.workEnd && s.Centered(e.p, e.d, e.w.workBgn, e.w.workEnd, e.mid, e.cycles)
    requires e.w.moved && e.w.first == Edge(Setting(2, 1, 0), 9) && e.w.origin == 1 && e.w.workBgn == 3120
    ensures e.p == 1 && e.d == 13
  {
    s.DelaysAreProducts(8);
    TimesIsProduct(e.cycles, 2496);
    s.DelaysAreProducts(e.p);
    s.DelaysAreProducts(e.p + 1);
    s.DelaysAreProducts(e.d);
  }

  /**
   With the shipped geometry an interval of two phase taps and a delay tap can be measured and then missed: it begins just after
   phase 7 of slot 1, so the window begins at phase 1 of slot 2, the begin edge is moved to a failing setting beyond the interval, and
   the centre with it.
   */
  method ShortWindowIsMissed() returns (s: EnableSearch, ok: bool, ghost w: Window)
    ensures Shipped(s) && !ok && Steady(s, s.trace, 4681, 5330)
    ensures s.Measured(s.trace, w) && w.moved && s.ReadAt(s.trace, w.begin, false)
  {
    ChainOf31();
    s := new EnableSearch(16, 7, 31, 312, 25, 0, n => n == 9);
    var v, dtaps;
    ghost var e;
    ok, v, dtaps, e := s.FindDqsEnPhase();
    NineEndsWithoutPass(s, s.trace, e);
    NineIsSteady(s, s.trace, e);
    w := e.w;
    NineIsNil(s, s.trace, w);
  }
}
