/**
 Search for the DQS-enable setting of a read group: a VFIFO slot, a phase tap and a delay tap.

 The read test is an arbitrary stream of verdicts, so every claim holds for every run.  Phase
 tap 0 cannot be set in this configuration and is skipped.
 */
module DqsEnable {
  import opened IntegerArithmetic

  /** A setting: the VFIFO turn since entry, the phase tap and the delay tap. */
  datatype Setting = Setting(turn: int, phase: int, tap: int)

  /** A setting together with the number of the read test that was made at it. */
  datatype Edge = Edge(at: Setting, test: nat)

  /**
   What the search measured: the turn it counts delays from, the number of tests up to the second failure,
   the first passing setting, the begin edge after refining, the test the scan for the end began with, the begin edge
   and whether that test moved it there, the failing test that ended the scan, the first test of the
   extension and the delay tap it stopped at, the end edge, and both edges' recorded delays.
   */
  datatype Window = Window(origin: int, failing: nat, first: Edge, refined: Edge, scan: nat, begin: Edge, moved: bool, stop: nat,
                           ext: nat, taps: nat, end: Setting, workBgn: nat, workEnd: nat)

  /**
   How a search ends. The centre is the window's middle, reduced by whole cycles; p and d are its phase and
   delay, and the final push starts with test `from`.
   */
  datatype Ending =
    | Centred(w: Window, mid: int, cycles: int, p: int, d: int, from: nat)
    | NoFailure
    | NoBegin(failing: nat, dtaps: nat)
    | NoEnd(w: Window)
    | NilRange(w: Window)
    | NoPass(w: Window, mid: int, cycles: int, p: int, d: int, from: nat)

  class EnableSearch {
    const size: nat               // VFIFO slots
    const phaseMax: nat           // last phase tap
    const delayMax: nat           // last delay tap
    const opa: nat                // delay of one phase tap
    const dchain: nat             // delay of one delay tap
    const entry: nat              // VFIFO slot on entry
    const verdict: nat -> bool    // outcome of the n-th read test

    var tests: nat                // read tests issued so far
    var pointer: nat              // hardware VFIFO slot
    var phase: int                // programmed phase tap
    var delay: int                // programmed delay tap
    ghost var phases: set<int>    // every phase tap ever programmed
    ghost var delays: set<int>    // every delay tap ever programmed
    ghost var turn: int           // slots moved since entry, a decrement counting -1
    ghost var trace: seq<Setting> // the setting of every read test so far

    constructor (size: nat, phaseMax: nat, delayMax: nat, opa: nat, dchain: nat, entry: nat, verdict: nat -> bool)
      requires 0 < size && entry < size && 0 < phaseMax && 0 < dchain <= opa <= Times(delayMax, dchain)
      ensures Valid() && turn == 0 && tests == 0 && pointer == entry
      ensures this.size == size && this.phaseMax == phaseMax && this.delayMax == delayMax && this.opa == opa && this.dchain == dchain
      ensures this.entry == entry && this.verdict == verdict
    {
      this.size, this.phaseMax, this.delayMax, this.opa, this.dchain := size, phaseMax, delayMax, opa, dchain;
      this.entry, this.verdict := entry, verdict;
      tests, pointer, phase, delay, phases, delays, turn, trace := 0, entry, 0, 0, {}, {}, 0, [];
    }

    ghost predicate Valid()
      reads this
    {
      && 0 < size && entry < size && 0 < phaseMax && 0 < dchain <= opa <= Times(delayMax, dchain)
      && pointer == Slot(entry + turn, size) && |trace| == tests
      && (forall p :: p in phases ==> 1 <= p <= phaseMax)
      && (forall d :: d in delays ==> 0 <= d <= delayMax)
    }

    /** The counter v agrees with the hardware: its remainder is the slot displacement since entry. */
    ghost predicate Tracks(v: nat)
      reads this
    {
      0 < size && Slot(v, size) == Slot(turn, size)
    }

    /** Delay of n phase taps. */
    function At(n: int): int { Times(n, opa) }

    /** Delay of n delay taps. */
    function Chain(n: int): int { Times(n, dchain) }

    /** Both are plain products. */
    lemma DelaysAreProducts(n: int)
      ensures At(n) == n * opa && Chain(n) == n * dchain
    {
      TimesIsProduct(n, opa);
      TimesIsProduct(n, dchain);
    }

    /** Number of phase taps from slot 0, phase 0 to slot t, phase p. */
    function Taps(t: int, p: int): int { Times(t, phaseMax + 1) + p }

    /** Did the latest read test pass? */
    predicate JustPassed()
      reads this
    {
      0 < tests && verdict(tests - 1)
    }

    /** The latest read test was made with the registers as they are, `beyond` slots back. */
    ghost predicate AtRest(beyond: int)
      reads this
    {
      0 < tests == |trace| && trace[tests - 1] == Setting(turn - beyond, phase, delay)
    }

    lemma AtStep(n: int)
      ensures At(n + 1) == At(n) + opa
      ensures At(n - 1) == At(n) - opa
    {
    }

    lemma ChainStep(n: int)
      ensures Chain(n + 1) == Chain(n) + dchain
    {
    }

    lemma ChainNonNegative(n: int)
      requires 0 <= n && 0 <= dchain
      ensures 0 <= Chain(n)
    {
      if n > 0 { ChainNonNegative(n - 1); }
    }

    lemma TapsWrap(t: int)
      ensures Taps(t + 1, 0) == Taps(t, phaseMax + 1)
      ensures Taps(t - 1, phaseMax + 1) == Taps(t, 0)
    {
    }

    /** One phase tap on, over the slots, and the first setting from there whose phase can be programmed. */
    function Beyond(s: Setting): Setting
    {
      if s.phase < phaseMax then s.(phase := s.phase + 1) else Setting(s.turn + 1, 0, s.tap)
    }

    function Usable(s: Setting): Setting { if s.phase == 0 then s.(phase := 1) else s }

    function NextUsable(s: Setting): Setting { Usable(Beyond(s)) }

    /** Tests from to to were made at one usable phase after the other. */
    ghost predicate Consecutive(tr: seq<Setting>, from: nat, to: nat)
    {
      from <= to < |tr| && forall n :: from <= n < to ==> tr[n + 1] == NextUsable(tr[n])
    }

    /** The phases of one slot, from phase p on, continue what was tested up to there. */
    lemma SlotFollows(known: seq<Setting>, tr: seq<Setting>, from: nat, t: int, p: nat, d: int)
      requires known <= tr && from <= |known| < |tr| && 1 <= p && p + (|tr| - 1 - |known|) <= phaseMax
      requires forall n :: |known| <= n < |tr| ==> tr[n] == Setting(t, p + (n - |known|), d)
      requires from < |known| ==> Consecutive(known, from, |known| - 1) && Setting(t, p, d) == NextUsable(known[|known| - 1])
      ensures Consecutive(tr, from, |tr| - 1)
    {
      forall n | from <= n < |tr| - 1 ensures tr[n + 1] == NextUsable(tr[n]) {
        if n < |known| - 1 { assert known[n + 1] == NextUsable(known[n]); }
      }
    }

    method SetPhase(p: int)
      modifies this`phase, this`phases
      ensures phase == p && phases == old(phases) + {p}
    {
      phase := p;
      phases := phases + {p};
    }

    method SetDelay(d: int)
      modifies this`delay, this`delays
      ensures delay == d && delays == old(delays) + {d}
    {
      delay := d;
      delays := delays + {d};
    }

    method ReadTest() returns (ok: bool)
      modifies this`tests, this`trace
      ensures tests == old(tests) + 1 && ok == JustPassed() == verdict(old(tests))
      ensures trace == old(trace) + [Setting(turn, phase, delay)]
    {
      ok := verdict(tests);
      trace := trace + [Setting(turn, phase, delay)];
      tests := tests + 1;
    }

    /** The only command the hard VFIFO has. */
    method IncrVfifo(v: nat) returns (v': nat)
      requires Valid() && Tracks(v)
      modifies this`pointer, this`turn
      ensures Valid() && Tracks(v') && v' == v + 1 && turn == old(turn) + 1
    {
      pointer := (pointer + 1) % size;
      v' := v + 1;
      turn := turn + 1;
      SlotShift(v, old(turn), 1, size);
      SlotShift(entry + old(turn), old(pointer), 1, size);
      NextSlot(old(pointer), size);
    }

    /** Going back one slot: size - 1 increments. */
    method DecrVfifo(v: nat) returns (v': nat)
      requires Valid() && Tracks(v)
      modifies this`pointer, this`turn
      ensures Valid() && Tracks(v') && turn == old(turn) - 1
    {
      v' := v;
      for i := 0 to size - 1
        invariant Valid() && Tracks(v') && turn == old(turn) + i
      {
        v' := IncrVfifo(v');
      }
      turn := turn - size;
      FullTurn(entry + turn, size);
      FullTurn(turn, size);
    }

    /** Number of failing verdicts among tests from..to-1. */
    ghost function Failures(from: nat, to: nat): nat
      requires from <= to
    {
      if from == to then 0 else Failures(from, to - 1) + if verdict(to - 1) then 0 else 1
    }

    /** Step 1: push the VFIFO until the second failing read. */
    method PushToFailing() returns (found: bool, v: nat)
      requires Valid() && turn == 0
      modifies this`tests, this`trace, this`pointer, this`turn
      ensures Valid() && Tracks(v) && old(tests) <= tests && old(trace) <= trace
      ensures found <==> v < size
      ensures forall n :: old(tests) <= n < tests ==> trace[n] == Setting(n - old(tests), phase, delay)
      ensures found ==> Failures(old(tests), tests) == 2 && !JustPassed() && turn == tests - 1 - old(tests)
      ensures !found ==> Failures(old(tests), tests) < 2 && tests == old(tests) + size && AtRest(1)
    {
      v := 0;
      var failCount := 0;
      while v < size
        invariant Valid() && Tracks(v) && v <= size && tests == old(tests) + v && old(trace) <= trace && turn == v
        invariant forall n :: old(tests) <= n < tests ==> trace[n] == Setting(n - old(tests), phase, delay)
        invariant failCount == Failures(old(tests), tests) < 2
      {
        var ok := ReadTest();
        if !ok {
          failCount := failCount + 1;
          if failCount == 2 {
            return true, v;
          }
        }
        v := IncrVfifo(v);
      }
      found := false;
    }

    /** The phases of one slot, except phase 0, which is counted but not tried. */
    method FindPhase(d: nat, workBgn0: nat, ghost origin: int) returns (found: bool, p: nat, workBgn: nat)
      requires Valid() && delay == d
      requires workBgn0 == At(Taps(turn - origin, 0)) + Chain(d)
      modifies this`phase, this`phases, this`tests, this`trace
      ensures Valid() && delay == d && turn == old(turn) && old(trace) <= trace
      ensures forall n :: old(tests) <= n < tests ==> trace[n] == Setting(turn, n - old(tests) + 1, d)
      ensures workBgn == At(Taps(turn - origin, p)) + Chain(d)
      ensures if found then 1 <= p <= phaseMax && phase == p && JustPassed() else p == phaseMax + 1 && phase == phaseMax
      ensures tests == old(tests) + if found then p else phaseMax
      ensures forall n :: old(tests) <= n < old(tests) + p - 1 ==> !verdict(n)
    {
      p, workBgn, found := 0, workBgn0, false;
      while p <= phaseMax
        invariant Valid() && 0 <= p <= phaseMax + 1 && old(trace) <= trace
        invariant tests == old(tests) + if p == 0 then 0 else p - 1
        invariant forall n :: old(tests) <= n < tests ==> !verdict(n) && trace[n] == Setting(turn, n - old(tests) + 1, d)
        invariant workBgn == At(Taps(turn - origin, p)) + Chain(d) && (1 < p ==> phase == p - 1)
        decreases phaseMax + 1 - p
      {
        if p != 0 {
          SetPhase(p);
          found := ReadTest();
          if found { return; }
        }
        AtStep(Taps(turn - origin, p));
        p := p + 1;
        workBgn := workBgn + opa;
      }
    }

    /** All slots at one delay tap; `origin` is the turn at which the sweep began. */
    method FindSlot(v0: nat, d: nat, work: nat) returns (found: bool, v: nat, i: nat, p: nat, workBgn: nat, ghost origin: int)
      requires Valid() && Tracks(v0) && delay == d && work == Chain(d)
      modifies this`phase, this`phases, this`tests, this`trace, this`pointer, this`turn
      ensures Valid() && Tracks(v) && delay == d && old(trace) <= trace && old(tests) < tests && origin == old(turn)
      ensures Consecutive(trace, old(tests), tests - 1) && trace[old(tests)] == Setting(origin, 1, d)
      ensures found ==> trace[tests - 1] == Setting(turn, p, d)
      ensures found ==>
        && i < size && 1 <= p <= phaseMax && phase == p && JustPassed()
        && turn == origin + i && workBgn == At(Taps(turn - origin, p)) + Chain(d)
        && tests == old(tests) + Times(i, phaseMax) + p
      ensures !found ==> tests == old(tests) + Times(size, phaseMax) && turn == origin + size && AtRest(1)
      ensures forall n :: old(tests) <= n < tests - (if found then 1 else 0) ==> !verdict(n)
    {
      v, i, p, workBgn, found, origin := v0, 0, 0, work, false, turn;
      while i < size
        invariant Valid() && Tracks(v) && i <= size && turn == origin + i && delay == d && old(trace) <= trace
        invariant workBgn == At(Taps(turn - origin, 0)) + Chain(d)
        invariant old(tests) <= tests == old(tests) + Times(i, phaseMax) && (0 < i ==> old(tests) < tests)
        invariant 0 < i ==> Consecutive(trace, old(tests), tests - 1) && trace[old(tests)] == Setting(origin, 1, d)
        invariant 0 < i ==> trace[tests - 1] == Setting(turn - 1, phaseMax, d) && phase == phaseMax
        invariant forall n :: old(tests) <= n < tests ==> !verdict(n)
      {
        ghost var known := trace;
        found, p, workBgn := FindPhase(d, workBgn, origin);
        SlotFollows(known, trace, old(tests), turn, 1, d);
        if found { return; }
        TapsWrap(turn - origin);
        v := IncrVfifo(v);
        i := i + 1;
      }
    }

    /** Settings in one sweep over a whole turn. */
    function PerSweep(): int { Times(size, phaseMax) }

    /** From test `from` on, one whole turn from slot t on was swept at delay tap d. */
    ghost predicate Sweep(tr: seq<Setting>, from: int, t: int, d: int)
    {
      0 <= from && 0 < PerSweep() && Consecutive(tr, from, from + PerSweep() - 1) && tr[from] == Setting(t, 1, d)
    }

    /** The first n delay taps were swept in turn. */
    ghost predicate Sweeps(tr: seq<Setting>, from: nat, t: int, n: int)
    {
      forall d :: 0 <= d < n ==> Sweep(tr, from + Times(d, PerSweep()), t + Times(d, size), d)
    }

    lemma SweepsKept(tr: seq<Setting>, later: seq<Setting>, from: nat, t: int, n: int)
      requires tr <= later && Sweeps(tr, from, t, n)
      ensures Sweeps(later, from, t, n)
    {
    }

    /**
     Step 2: the first passing setting, tried delay tap by delay tap, slot by slot, phase by
     phase. `origin` is the turn at which the successful delay tap's sweep began; `workBgn` is
     the setting's delay counted from there. Every setting tried before it failed, and none
     was passed over.
     */
    method FindBegin(v0: nat, dtaps: nat) returns (found: bool, v: nat, i: nat, p: nat, d: nat, workBgn: nat, ghost origin: int)
      requires Valid() && Tracks(v0) && dtaps <= delayMax
      modifies this
      ensures Valid() && Tracks(v) && old(trace) <= trace
      ensures found ==>
        && i < size && 1 <= p <= phaseMax && d <= dtaps
        && phase == p && delay == d && JustPassed() && trace[tests - 1] == Setting(turn, p, d)
        && turn == origin + i && workBgn == At(Taps(turn - origin, p)) + Chain(d)
        && tests == old(tests) + Times(d, PerSweep()) + Times(i, phaseMax) + p && origin == old(turn) + Times(d, size)
        && 0 <= Times(d, PerSweep()) && Consecutive(trace, old(tests) + Times(d, PerSweep()), tests - 1)
        && trace[old(tests) + Times(d, PerSweep())] == Setting(origin, 1, d)
      ensures Sweeps(trace, old(tests), old(turn), if found then d else dtaps + 1)
      ensures !found ==> tests == old(tests) + Times(dtaps + 1, PerSweep()) && AtRest(1)
      ensures old(tests) <= tests && (found ==> old(tests) < tests)
      ensures forall n :: old(tests) <= n < tests - (if found then 1 else 0) ==> !verdict(n)
    {
      hide Consecutive, Slot, At, Taps, AtRest;
      v, d, found, i, p, workBgn := v0, 0, false, 0, 0, 0;
      origin := turn;
      var tmpDelay: nat := 0;
      while d <= dtaps
        invariant Valid() && Tracks(v) && d <= dtaps + 1 && old(trace) <= trace
        invariant tmpDelay == Chain(d) && turn == old(turn) + Times(d, size)
        invariant old(tests) <= tests == old(tests) + Times(d, PerSweep())
        invariant Sweeps(trace, old(tests), old(turn), d) && (0 < d ==> AtRest(1))
        invariant forall n :: old(tests) <= n < tests ==> !verdict(n)
      {
        ghost var known := trace;
        SetDelay(d);
        found, v, i, p, workBgn, origin := FindSlot(v, d, tmpDelay);
        SweepsKept(known, trace, old(tests), old(turn), d);
        if found { return; }
        d := d + 1;
        tmpDelay := tmpDelay + dchain;
      }
    }

    /**
     Step 3a: back off one phase and look for an earlier passing delay tap. Phase 1 is not backed
     off. A refined edge is the first passing tap of the phase before; otherwise every
     tap below one phase tap failed.
     */
    method RefineBegin(v0: nat, p0: nat, workBgn0: nat) returns (v: nat, p: nat, workBgn: nat, ghost refined: bool)
      requires Valid() && Tracks(v0) && 1 <= p0 <= phaseMax && opa <= workBgn0 && (p0 != 1 ==> 2 * opa <= workBgn0)
      modifies this
      ensures Valid() && Tracks(v) && opa <= workBgn && old(trace) <= trace
      ensures p0 == 1 ==> !refined && tests == old(tests)
      ensures refined ==>
        && old(tests) < tests && JustPassed()
        && trace[tests - 1] == Setting(old(turn), p0 - 1, tests - 1 - old(tests))
        && workBgn0 - workBgn == opa - Chain(tests - 1 - old(tests)) && workBgn < workBgn0
      ensures !refined ==> workBgn == workBgn0
      ensures !refined && p0 != 1 ==> opa <= Chain(tests - old(tests))
      ensures forall n :: old(tests) <= n < tests ==> trace[n] == Setting(old(turn), p0 - 1, n - old(tests))
      ensures forall n :: old(tests) <= n < tests - (if refined then 1 else 0) ==> !verdict(n)
      ensures p <= phaseMax && Setting(turn, p, 0) == if p0 == 1 then Beyond(Setting(old(turn), 1, 0)) else Setting(old(turn), p0, 0)
    {
      v, workBgn, refined := v0, workBgn0, false;
      p := p0 - 1;
      var tmpDelay: nat := workBgn - opa;
      if p == 0 {
        p := 1;
        tmpDelay := workBgn;
      }
      SetPhase(p);
      if tmpDelay < workBgn {
        workBgn, refined := EarlierTap(workBgn, tmpDelay);
      }
      p := p + 1;
      if p > phaseMax {
        p := 0;
        v := IncrVfifo(v);
      }
    }

    /** The delay taps of the phase before the begin edge, as long as they are below it. */
    method EarlierTap(workBgn0: nat, tmpDelay0: nat) returns (workBgn: nat, ghost refined: bool)
      requires Valid() && tmpDelay0 + opa == workBgn0
      modifies this`tests, this`trace, this`delay, this`delays
      ensures Valid() && old(tests) <= tests && old(trace) <= trace && tmpDelay0 <= workBgn
      ensures refined ==>
        && old(tests) < tests && JustPassed()
        && trace[tests - 1] == Setting(turn, phase, tests - 1 - old(tests))
        && workBgn == tmpDelay0 + Chain(tests - 1 - old(tests)) && workBgn < workBgn0
      ensures !refined ==> workBgn == workBgn0 && opa <= Chain(tests - old(tests))
      ensures forall n :: old(tests) <= n < tests ==> trace[n] == Setting(turn, phase, n - old(tests))
      ensures forall n :: old(tests) <= n < tests - (if refined then 1 else 0) ==> !verdict(n)
    {
      workBgn, refined := workBgn0, false;
      var d: nat, tmpDelay: nat := 0, tmpDelay0;
      while d <= delayMax && tmpDelay < workBgn
        invariant Valid() && 0 <= d <= delayMax + 1 && d == tests - old(tests) && old(trace) <= trace
        invariant tmpDelay0 <= tmpDelay == tmpDelay0 + Chain(d)
        invariant forall n :: old(tests) <= n < tests ==> !verdict(n) && trace[n] == Setting(turn, phase, n - old(tests))
        decreases delayMax + 1 - d
      {
        SetDelay(d);
        var ok := ReadTest();
        if ok {
          workBgn, refined := tmpDelay, true;
          return;
        }
        d := d + 1;
        tmpDelay := tmpDelay + dchain;
      }
      if delayMax < d { TapsCover(d); }
    }

    /** The first phase that can be tried from phase p on. */
    function Tried(p: nat): nat { if p == 0 then 1 else p }

    /**
     Step 4a: forward from the begin edge, phase by phase, until a read fails. A failure of the very
     first phase looked at only moves the begin edge there. `lag` is how far workEnd trails the
     current setting.
     */
    method FindEnd(v0: nat, i0: nat, p0: nat, workBgn0: nat, workEnd0: nat, ghost origin: int, ghost lag: int)
      returns (found: bool, v: nat, p: nat, workBgn: nat, workEnd: nat, ghost moved: bool)
      requires Valid() && Tracks(v0) && i0 <= size && p0 <= phaseMax && opa <= workBgn0 && opa <= workEnd0
      requires At(Taps(turn - origin, p0)) == workEnd0 + lag
      modifies this`tests, this`trace, this`pointer, this`turn, this`phase, this`phases
      ensures Valid() && Tracks(v) && old(trace) <= trace && workEnd0 + opa <= workEnd && old(tests) < tests
      ensures trace[old(tests)] == NextUsable(Setting(old(turn), p0, delay)) && Consecutive(trace, old(tests), tests - 1)
      ensures moved <==> p0 < phaseMax && !verdict(old(tests))
      ensures workBgn == if moved then workEnd0 + opa else workBgn0
      ensures found ==>
        && 1 <= p <= phaseMax && phase == p && !JustPassed() && (p0 < phaseMax ==> old(tests) + 1 < tests)
        && trace[tests - 1] == Setting(turn, p, delay)
        && At(Taps(turn - origin, p)) == workEnd + lag
        && workEnd0 + 2 * opa <= workEnd
      ensures forall n :: old(tests) <= n < tests - (if found then 1 else 0) ==> verdict(n) || (n == old(tests) && moved)
      ensures !found ==>
        AtRest(1) && trace[tests - 1].phase == phaseMax && trace[tests - 1].turn == Beyond(Setting(old(turn), p0, delay)).turn + (size - i0)
    {
      hide Slot, Chain, Consecutive, Times;
      v, p, workBgn, workEnd, moved := v0, p0, workBgn0, workEnd0, false;
      p := p + 1;
      workEnd := workEnd + opa;
      AtStep(Taps(turn - origin, p0));
      if p > phaseMax {
        p := 0;
        TapsWrap(turn - origin);
        v := IncrVfifo(v);
      }
      ghost var first := Setting(turn, p, delay);
      var j, i := 0, i0;
      found := false;
      while i < size + 1
        invariant Valid() && Tracks(v) && i0 <= i <= size + 1 && p <= phaseMax && workEnd0 + opa <= workEnd
        invariant if j == 0 then i == i0 && first == Setting(turn, p, delay) && workEnd == workEnd0 + opa && tests == old(tests)
                  else workEnd0 + 2 * opa <= workEnd && old(tests) < tests
        invariant At(Taps(turn - origin, p)) == workEnd + lag
        invariant old(trace) <= trace && turn == first.turn + (i - i0) && first == Beyond(Setting(old(turn), p0, delay))
        invariant j > 0 ==> p == 0 && Consecutive(trace, old(tests), tests - 1) && trace[old(tests)] == Usable(first)
        invariant j > 0 ==> trace[tests - 1] == Setting(turn - 1, phaseMax, delay) && phase == phaseMax
        invariant moved <==> j > 0 && p0 < phaseMax && !verdict(old(tests))
        invariant workBgn == if moved then workEnd0 + opa else workBgn0
        invariant forall n :: old(tests) <= n < tests ==> verdict(n) || (n == old(tests) && moved)
        invariant i > i0 ==> j > 0
      {
        ghost var known, p1 := trace, Tried(p);
        ghost var m;
        found, p, j, workBgn, workEnd, m := ScanPhases(p, j, workBgn, workEnd, turn - origin, lag);
        moved := moved || m;
        SlotFollows(known, trace, old(tests), turn, p1, delay);
        if found {
          return;
        }
        TapsWrap(turn - origin);
        v := IncrVfifo(v);
        p := 0;
        i := i + 1;
      }
    }

    /** The phases of one slot, from p0 on; j counts the edges looked at. */
    method ScanPhases(p0: nat, j0: nat, workBgn0: nat, workEnd0: nat, ghost t: int, ghost lag: int)
      returns (found: bool, p: nat, j: nat, workBgn: nat, workEnd: nat, ghost moved: bool)
      requires Valid() && p0 <= phaseMax
      requires At(Taps(t, p0)) == workEnd0 + lag
      modifies this`tests, this`trace, this`phase, this`phases
      ensures Valid() && workEnd0 <= workEnd && old(trace) <= trace && p0 <= p <= phaseMax + 1
      ensures At(Taps(t, p)) == workEnd + lag
      ensures moved <==> j0 == 0 && 0 < p0 && !verdict(old(tests))
      ensures workBgn == if moved then workEnd0 else workBgn0
      ensures j0 <= j && (!found ==> p == phaseMax + 1 && j > j0 && workEnd0 + opa <= workEnd && phase == phaseMax)
      ensures found ==>
        && 1 <= p <= phaseMax && phase == p && 0 < tests && !JustPassed() && trace[tests - 1] == Setting(turn, p, delay)
        && (j0 == 0 ==> workEnd0 + opa <= workEnd)
      ensures forall n :: old(tests) <= n < tests ==> trace[n] == Setting(turn, Tried(p0) + (n - old(tests)), delay)
      ensures tests == old(tests) + (p - Tried(p0)) + if found then 1 else 0
      ensures forall n :: old(tests) + (if j0 == 0 && 0 < p0 then 1 else 0) <= n < tests - (if found then 1 else 0) ==> verdict(n)
    {
      found, p, j, workBgn, workEnd, moved := false, p0, j0, workBgn0, workEnd0, false;
      while p <= phaseMax
        invariant Valid() && p0 <= p <= phaseMax + 1 && j == j0 + (p - p0) && workEnd0 <= workEnd
        invariant p > p0 ==> workEnd0 + opa <= workEnd && (1 < p ==> phase == p - 1)
        invariant At(Taps(t, p)) == workEnd + lag
        invariant old(trace) <= trace && tests == old(tests) + (if p == 0 then 0 else p - Tried(p0))
        invariant forall n :: old(tests) <= n < tests ==> trace[n] == Setting(turn, Tried(p0) + (n - old(tests)), delay)
        invariant moved <==> p > p0 && j0 == 0 && 0 < p0 && !verdict(old(tests))
        invariant workBgn == if moved then workEnd0 else workBgn0
        invariant forall n :: old(tests) + (if j0 == 0 && 0 < p0 then 1 else 0) <= n < tests ==> verdict(n)
        decreases phaseMax + 1 - p
      {
        j := j + 1;
        if p != 0 {
          SetPhase(p);
          var ok := ReadTest();
          if !ok && j == 1 {
            workBgn := workEnd;
            moved := true;
          } else if !ok {
            found := true;
            return;
          }
        }
        AtStep(Taps(t, p));
        p := p + 1;
        workEnd := workEnd + opa;
      }
    }

    /** Step 5a: one phase back from the failing one, over phase 0 if need be. */
    method BackOffEnd(v0: nat, p0: nat, workEnd0: nat, ghost origin: int, ghost lag: int) returns (v: nat, p: nat, workEnd: nat)
      requires Valid() && Tracks(v0) && 1 <= p0 <= phaseMax && 3 * opa <= workEnd0
      requires At(Taps(turn - origin, p0)) == workEnd0 + lag
      modifies this`pointer, this`turn, this`phase, this`phases
      ensures Valid() && Tracks(v) && 1 <= p <= phaseMax && phase == p
      ensures At(Taps(turn - origin, p)) == workEnd + lag
      ensures workEnd == workEnd0 - (if p0 == 1 then 2 * opa else opa)
      ensures NextUsable(Setting(turn, p, 0)) == Setting(old(turn), p0, 0)
    {
      v, p, workEnd := v0, p0, workEnd0;
      AtStep(Taps(turn - origin, p));
      if p == 1 {
        p := 0;
        workEnd := workEnd - opa;
      }
      AtStep(Taps(turn - origin, p));
      if p == 0 {
        p := phaseMax;
        TapsWrap(turn - origin);
        v := DecrVfifo(v);
      } else {
        p := p - 1;
      }
      workEnd := workEnd - opa;
      SetPhase(p);
    }

    /**
     The delay-tap extension of the end edge shared by both branches: every tap before the stop
     passes, the one it stops at fails.
     */
    method ExtendEnd(d0: nat, workEnd0: nat) returns (d: nat, workEnd: nat)
      requires Valid() && d0 <= delayMax && opa <= workEnd0
      modifies this`tests, this`trace, this`delay, this`delays
      ensures Valid() && d0 <= d <= delayMax + 1 && old(trace) <= trace
      ensures workEnd == workEnd0 + Chain(d - d0) - (if d == 0 then 0 else dchain)
      ensures tests == old(tests) + (d - d0) + if d <= delayMax then 1 else 0
      ensures TapsPass(old(tests), d0, d)
      ensures d <= delayMax ==> delay == d && trace[tests - 1] == Setting(turn, phase, d) && !verdict(tests - 1)
      ensures AtRest(0)
    {
      d, workEnd := d0, workEnd0;
      while d <= delayMax
        invariant Valid() && d0 <= d <= delayMax + 1 && old(trace) <= trace
        invariant workEnd == workEnd0 + Chain(d - d0)
        invariant tests == old(tests) + (d - d0) && (d0 < d ==> AtRest(0))
        invariant TapsPass(old(tests), d0, d)
      {
        SetDelay(d);
        var ok := ReadTest();
        if !ok {
          break;
        }
        d := d + 1;
        workEnd := workEnd + dchain;
      }
      if d != 0 {
        ChainNonNegative(d - d0);
        workEnd := workEnd - dchain;
      }
    }

    /** From test `from` on, delay taps d0 to d - 1 of the programmed slot and phase were tested and passed. */
    ghost predicate TapsPass(from: nat, d0: nat, d: nat)
      reads this
    {
      && d0 <= d && from + (d - d0) <= |trace|
      && forall n :: from <= n < from + (d - d0) ==> trace[n] == Setting(turn, phase, d0 + (n - from)) && verdict(n)
    }

    /** Some read test from from to to - 1 passed and a later one failed. */
    ghost predicate PassedThenFailed(from: int, to: int)
    {
      exists n: nat, m: nat :: from <= n < m < to && verdict(n) && !verdict(m)
    }

    /**
     Delay taps per phase tap, re-measured at the usable phase before p0 for run-time tracking: the distance to the
     tap that fails after a passing one. If the chain ends first, the computed number stays.
     */
    method MeasureTracking(v0: nat, p0: nat, d0: nat, static0: nat) returns (v: nat, dtapsPerPtap: nat)
      requires Valid() && Tracks(v0) && 1 <= p0 <= phaseMax && d0 <= delayMax + 1 && static0 <= delayMax
      modifies this
      ensures Valid() && Tracks(v) && dtapsPerPtap <= delayMax && old(trace) <= trace
      ensures NextUsable(Setting(turn, phase, 0)) == Setting(old(turn), p0, 0)
      ensures forall n :: old(tests) <= n < tests ==> trace[n] == Setting(turn, phase, d0 + (n - old(tests)))
      ensures old(tests) <= tests <= old(tests) + (delayMax + 1 - d0)
      ensures dtapsPerPtap == if PassedThenFailed(old(tests), tests) then tests - old(tests) - 1 else static0
      ensures PassedThenFailed(old(tests), tests) ==> delay == d0 + dtapsPerPtap && !JustPassed()
      ensures !PassedThenFailed(old(tests), tests) ==> tests == old(tests) + (delayMax + 1 - d0)
      ensures !PassedThenFailed(old(tests), tests - 1)
    {
      v, dtapsPerPtap := v0, static0;
      var p := p0;
      if p == 0 || p == 1 {
        p := phaseMax;
        v := DecrVfifo(v);
      } else {
        p := p - 1;
      }
      SetPhase(p);
      var foundPassing, d := DelayWith(true, d0);
      var foundFailing := false;
      ghost var passing := tests - 1;
      if foundPassing {
        assert verdict(passing);
        foundFailing, d := DelayWith(false, d + 1);
      }
      if foundPassing && foundFailing {
        dtapsPerPtap := d - d0;
        assert !verdict(tests - 1);
      }
    }

    /** The first delay tap from d0 on at which the read test gives the wanted verdict. */
    method DelayWith(wanted: bool, d0: nat) returns (found: bool, d: nat)
      requires Valid() && d0 <= delayMax + 1
      modifies this`delay, this`delays, this`tests, this`trace
      ensures Valid() && d0 <= d <= delayMax + 1 && (found <==> d <= delayMax) && old(trace) <= trace
      ensures found ==> delay == d && tests > 0 && verdict(tests - 1) == wanted
      ensures tests == old(tests) + (d - d0) + if found then 1 else 0
      ensures forall n :: old(tests) <= n < tests ==> trace[n] == Setting(turn, phase, d0 + (n - old(tests)))
      ensures forall n :: old(tests) <= n < old(tests) + (d - d0) ==> verdict(n) != wanted
    {
      d, found := d0, false;
      while d <= delayMax
        invariant Valid() && d0 <= d <= delayMax + 1 && tests == old(tests) + (d - d0) && old(trace) <= trace
        invariant forall n :: old(tests) <= n < tests ==> verdict(n) != wanted && trace[n] == Setting(turn, phase, d0 + (n - old(tests)))
      {
        SetDelay(d);
        var ok := ReadTest();
        if ok == wanted {
          found := true;
          return;
        }
        d := d + 1;
      }
    }

    /**
     The setting for a window centre: `mid` is the centre reduced to one VFIFO cycle, and the
     programmed taps round it up by less than one delay tap. A centre within the first phase
     tap, which cannot be programmed, is replaced by phase 1 and no delay.
     */
    ghost predicate Centered(p: int, d: int, workBgn: nat, workEnd: nat, mid: int, cycles: int)
    {
      && 0 < mid <= At(phaseMax + 1) && 0 <= cycles
      && mid + Times(cycles, At(phaseMax + 1)) == (workBgn + workEnd) / 2
      && 1 <= p <= phaseMax && 0 <= d <= delayMax
      && if mid <= opa then p == 1 && d == 0
         else 0 <= At(p) + Chain(d) - mid < dchain && At(p) < mid <= At(p + 1)
    }

    /** Whole VFIFO cycles taken off the centre. */
    method ReduceToCycle(work: nat) returns (mid: nat, ghost cycles: nat)
      requires Valid() && 0 < work
      ensures 0 < mid <= At(phaseMax + 1) && mid + Times(cycles, At(phaseMax + 1)) == work
    {
      var tmpDelay: nat, p: nat := 0, 0;
      while p <= phaseMax
        invariant p <= phaseMax + 1 && tmpDelay == At(p)
      {
        AtStep(p);
        p := p + 1;
        tmpDelay := tmpDelay + opa;
      }
      cycles := 0;
      mid := work;
      AtPositive(phaseMax + 1);
      while mid > tmpDelay
        invariant 0 < mid && mid + Times(cycles, tmpDelay) == work
        decreases mid
      {
        TimesStep(cycles, tmpDelay);
        mid := mid - tmpDelay;
        cycles := cycles + 1;
      }
    }

    /** The phase loop: p phase taps are the fewest that reach mid. */
    method SplitPhase(mid: nat) returns (p: nat, tmpDelay: nat)
      requires Valid() && 0 < mid <= At(phaseMax + 1)
      ensures 1 <= p <= phaseMax + 1 && At(p - 1) < mid <= At(p) && tmpDelay == At(p - 1)
    {
      tmpDelay, p := 0, 0;
      while p <= phaseMax && tmpDelay < mid
        invariant p <= phaseMax + 1 && tmpDelay == At(p)
        invariant p > 0 ==> At(p - 1) < mid
        decreases phaseMax + 1 - p
      {
        AtStep(p);
        p := p + 1;
        tmpDelay := tmpDelay + opa;
      }
      AtStep(p);
      AtPositive(p);
      tmpDelay := tmpDelay - opa;
    }

    /** The delay loop: d delay taps are the fewest that reach mid from base. */
    method SplitDelay(base: nat, mid: nat) returns (d: nat)
      requires Valid() && base < mid <= base + opa
      ensures d <= delayMax && 0 <= base + Chain(d) - mid < dchain
    {
      d := 0;
      var tmpDelay := base;
      while d <= delayMax && tmpDelay < mid
        invariant d <= delayMax + 1 && tmpDelay == base + Chain(d)
        invariant tmpDelay < mid + dchain
        decreases delayMax + 1 - d
      {
        TapsCover(d);
        d := d + 1;
        tmpDelay := tmpDelay + dchain;
      }
      TapsCover(d);
    }

    /** Step 6: program the centre of the window. */
    method Center(workBgn: nat, workEnd: nat) returns (ghost mid: int, ghost cycles: int)
      requires Valid() && opa <= workBgn <= workEnd
      modifies this`phase, this`phases, this`delay, this`delays
      ensures Valid() && Centered(phase, delay, workBgn, workEnd, mid, cycles)
    {
      var workMid, k := ReduceToCycle((workBgn + workEnd) / 2);
      mid, cycles := workMid, k;
      var p, tmpDelay := SplitPhase(workMid);
      AtStep(p - 1);
      var d := SplitDelay(tmpDelay, workMid);
      ghost var p0 := p;
      if p == 1 {
        p := 2;
        d := 0;
      }
      SetPhase(p - 1);
      SetDelay(d);
      PhaseOneOnly(mid, p0);
    }

    /** The first phase tap is the one that reaches delays up to one tap. */
    lemma PhaseOneOnly(mid: int, p: nat)
      requires 0 < opa && 1 <= p && At(p - 1) < mid <= At(p)
      ensures mid <= opa <==> p == 1
    {
      if p >= 2 {
        AtPositive(p - 1);
      } else {
        AtStep(0);
      }
    }

    lemma AtPositive(n: int)
      requires 0 < n && 0 < opa
      ensures opa <= At(n)
    {
      if n > 1 {
        AtPositive(n - 1);
      }
      AtStep(n - 1);
    }

    /** A full delay chain covers a phase tap. */
    lemma TapsCover(d: nat)
      requires opa <= Chain(delayMax) && 0 <= dchain
      ensures delayMax <= d ==> opa <= Chain(d)
    {
      if delayMax < d {
        TapsCover(d - 1);
        ChainStep(d - 1);
      }
    }

    /** Delay of a setting counted from slot `origin`. */
    function SettingDelay(s: Setting, origin: int): int
    {
      At(Taps(s.turn - origin, s.phase)) + Chain(s.tap)
    }

    /** The edge's setting is what its test was made at, and this is the verdict. */
    ghost predicate ReadAt(tr: seq<Setting>, e: Edge, ok: bool)
    {
      e.test < |tr| && tr[e.test] == e.at && verdict(e.test) == ok
    }

    /** By how much the counters trail the settings once the search has gone on from its first passing setting. */
    function Lag(first: Setting): int { if first.tap == 0 && first.phase == 1 then opa else 0 }

    /** dtaps delay taps are the most that stay below a phase tap. */
    ghost predicate PerPhase(dtaps: nat) { Chain(dtaps) < opa <= Chain(dtaps + 1) }

    /** The first passing setting: every setting was tried in order and failed before it, with less delay than a phase tap. */
    ghost predicate FirstPassing(tr: seq<Setting>, failing: nat, first: Edge, origin: int)
    {
      var d := first.at.tap;
      var from := failing + Times(d, PerSweep());
      && 0 < failing <= from <= first.test && ReadAt(tr, first, true)
      && (forall n :: failing <= n < first.test ==> !verdict(n))
      && 1 <= first.at.phase <= phaseMax && 0 <= d <= delayMax && Chain(d) < opa && origin <= first.at.turn < origin + size
      && origin == tr[failing - 1].turn + Times(d, size) && Sweeps(tr, failing, tr[failing - 1].turn, d)
      && Consecutive(tr, from, first.test) && tr[from] == Setting(origin, 1, d)
      && first.test + 1 == from + Times(first.at.turn - origin, phaseMax) + first.at.phase
    }

    /** Tap k of the phase before the first passing setting was tested and failed. */
    ghost predicate TapFailed(tr: seq<Setting>, first: Edge, k: nat)
    {
      ReadAt(tr, Edge(Setting(first.at.turn, first.at.phase - 1, k), first.test + 1 + k), false)
    }

    /**
     The begin edge after refining. Without delay tap and past phase 1, it is the first passing tap of the phase before,
     if one below a whole phase tap passes; otherwise it is the first passing setting.
     */
    ghost predicate RefinedEdge(tr: seq<Setting>, first: Edge, r: Edge)
    {
      && ReadAt(tr, r, true)
      && if 0 < first.at.tap || first.at.phase == 1 then r == first
         else if r == first then forall k: nat :: Chain(k) < opa ==> TapFailed(tr, first, k)
         else
           && 0 <= r.at.tap && Chain(r.at.tap) < opa && r.test == first.test + 1 + r.at.tap
           && r.at == Setting(first.at.turn, first.at.phase - 1, r.at.tap)
           && forall k: nat :: k < r.at.tap ==> TapFailed(tr, first, k)
    }

    /** Where the scan for the end looks first: one phase tap beyond the first passing setting, two if that is phase 1. */
    function ScanStart(first: Setting): Setting
    {
      if first.phase == 1 then Beyond(Beyond(first)) else Beyond(first)
    }

    /** The scan for the end: from there one usable phase after the other, every test passing but one that moved the begin edge. */
    ghost predicate Scanned(tr: seq<Setting>, w: Window, to: nat)
    {
      && w.refined.test < w.scan && Consecutive(tr, w.scan, to) && tr[w.scan] == Usable(ScanStart(w.first.at))
      && (w.first.at.phase == 1 || w.refined != w.first ==> w.scan == w.refined.test + 1)
      && PassedOn(w, to)
    }

    ghost predicate PassedOn(w: Window, to: nat)
    {
      forall n :: w.scan <= n < to ==> verdict(n) || (n == w.scan && w.moved)
    }

    /**
     The begin edge: as refined; or, if the scan's first look fails, moved to that failing setting. Its
     recorded delay is its setting's, short by the lag if it was moved.
     */
    ghost predicate BeginEdge(tr: seq<Setting>, w: Window)
    {
      && RefinedEdge(tr, w.first, w.refined)
      && (w.moved ==> w.scan < |tr|)
      && (w.moved <==> w.first.at.tap == 0 && ScanStart(w.first.at).phase != 0 && !verdict(w.scan))
      && w.begin == (if w.moved then Edge(tr[w.scan], w.scan) else w.refined)
      && SettingDelay(w.begin.at, w.origin) == w.workBgn + (if w.moved then Lag(w.first.at) else 0)
    }

    /** Where the extension of the end edge starts: one usable phase before the failing one, or the first passing setting. */
    ghost predicate EndPhase(tr: seq<Setting>, w: Window, end: Setting)
    {
      if w.first.at.tap == 0 then
        && Scanned(tr, w, w.stop) && !verdict(w.stop) && (w.scan == w.stop ==> ScanStart(w.first.at).phase == 0)
        && w.ext == w.stop + 1 && end.tap == 0 && NextUsable(end) == tr[w.stop] && 1 <= end.phase <= phaseMax
      else
        w.ext == w.first.test + 1 && end == w.first.at
    }

    /**
     The end edge: its recorded delay is its setting's, short by the lag. Delay taps were tested from the
     first passing setting's on up to the edge and all passed; the next one failed unless the chain
     ended. If even tap 0 of the last phase fails when it is tested again, the edge is left there.
     */
    ghost predicate EndEdge(tr: seq<Setting>, w: Window)
    {
      var d0 := w.first.at.tap;
      && EndPhase(tr, w, w.end.(tap := d0)) && 1 <= w.end.phase <= phaseMax && 0 <= d0 <= w.taps <= delayMax + 1
      && w.end.tap == (if w.taps == 0 then 0 else w.taps - 1)
      && SettingDelay(w.end, w.origin) == w.workEnd + Lag(w.first.at)
      && w.ext + (w.taps - d0) <= |tr|
      && (forall n :: w.ext <= n < w.ext + (w.taps - d0) ==>
            tr[n] == Setting(w.end.turn, w.end.phase, d0 + (n - w.ext)) && verdict(n))
      && (w.taps <= delayMax ==> ReadAt(tr, Edge(Setting(w.end.turn, w.end.phase, w.taps), w.ext + (w.taps - d0)), false))
    }

    /** Both edges of the window, in terms of the settings they were measured at and their verdicts. */
    ghost predicate Measured(tr: seq<Setting>, w: Window)
    {
      opa <= w.workBgn && FirstPassing(tr, w.failing, w.first, w.origin) && BeginEdge(tr, w) && EndEdge(tr, w)
    }

    /** One phase tap on is one phase tap later. */
    lemma BeyondIsLater(s: Setting, origin: int)
      requires s.phase <= phaseMax
      ensures SettingDelay(Beyond(s), origin) == SettingDelay(s, origin) + opa
    {
      AtStep(Taps(s.turn - origin, s.phase));
      TapsWrap(s.turn - origin);
    }

    lemma BeginIsLate(t: nat, p: nat)
      requires 1 <= p && 0 < opa
      ensures At(p) <= At(Taps(t, p))
      ensures opa <= At(Taps(t, p)) && (p != 1 ==> 2 * opa <= At(Taps(t, p)))
    {
      TimesNonNegative(t, phaseMax + 1);
      TimesMonotonic(p, Taps(t, p), opa);
      TimesMonotonic(1, p, opa);
      if p != 1 {
        TimesMonotonic(2, p, opa);
        TimesStep(1, opa);
      }
    }

    /** Step 3a with what it says of the begin edge; the search then stands on the first passing setting, or one phase on. */
    method RefineEdge(v0: nat, ghost first: Edge, p0: nat, work: nat, i: nat, ghost origin: int)
      returns (v: nat, p: nat, workBgn: nat, ghost refined: Edge)
      requires Valid() && Tracks(v0) && ReadAt(trace, first, true) && first.test + 1 == tests && 1 <= p0 <= phaseMax
      requires first.at == Setting(turn, p0, 0) && turn == origin + i && work == SettingDelay(first.at, origin)
      modifies this
      ensures Valid() && Tracks(v) && opa <= workBgn <= work && old(trace) <= trace && p <= phaseMax
      ensures RefinedEdge(trace, first, refined) && SettingDelay(refined.at, origin) == workBgn
      ensures Beyond(Setting(turn, p, 0)) == ScanStart(first.at) && At(Taps(turn - origin, p)) == work + Lag(first.at)
      ensures refined.test < tests && (p0 == 1 || refined != first ==> tests == refined.test + 1)
    {
      BeginIsLate(i, p0);
      BeyondIsLater(first.at, origin);
      ghost var wasRefined;
      v, p, workBgn, wasRefined := RefineBegin(v0, p0, work);
      refined := if wasRefined then Edge(trace[tests - 1], tests - 1) else first;
      if wasRefined {
        BeyondIsLater(first.at.(phase := p0 - 1), origin);
      } else if p0 != 1 {
        TapsBelow(tests - old(tests));
      }
    }

    /** Fewer taps, less delay. */
    lemma TapsBelow(n: nat)
      requires opa <= Chain(n) && 0 < dchain
      ensures forall k: nat :: Chain(k) < opa ==> k < n
    {
      forall k: nat | n <= k ensures opa <= Chain(k) { TimesMonotonic(n, k, dchain); }
    }

    /** Step 4a with what it says of the begin edge and of the scan. */
    method ScanToEnd(v0: nat, i: nat, p0: nat, workBgn0: nat, work: nat, ghost w: Window)
      returns (found: bool, v: nat, p: nat, workBgn: nat, workEnd: nat, ghost w': Window)
      requires Valid() && Tracks(v0) && i < size && p0 <= phaseMax && delay == 0
      requires opa <= workBgn0 <= work && work == SettingDelay(w.first.at, w.origin)
      requires w.first.at.tap == 0 && w.first.at.turn == w.origin + i && At(Taps(turn - w.origin, p0)) == work + Lag(w.first.at)
      requires Beyond(Setting(turn, p0, 0)) == ScanStart(w.first.at) && w.first.at.turn <= turn
      requires RefinedEdge(trace, w.first, w.refined) && SettingDelay(w.refined.at, w.origin) == workBgn0
      requires w.refined.test < tests && (w.first.at.phase == 1 || w.refined != w.first ==> tests == w.refined.test + 1)
      modifies this`tests, this`trace, this`pointer, this`turn, this`phase, this`phases
      ensures Valid() && Tracks(v) && opa <= workBgn && work <= workEnd && old(trace) <= trace
      ensures w' == w.(scan := old(tests), begin := w'.begin, moved := w'.moved, workBgn := workBgn)
      ensures BeginEdge(trace, w') && (!w'.moved ==> workBgn <= work) && old(tests) < tests && Scanned(trace, w', tests - 1)
      ensures !found ==> ScannedOn(trace, w') && AtRest(1)
      ensures found ==>
        && 1 <= p <= phaseMax && phase == p && !JustPassed() && trace[tests - 1] == Setting(turn, p, 0) && work + 2 * opa <= workEnd
        && At(Taps(turn - w.origin, p)) == workEnd + Lag(w.first.at) && (old(tests) == tests - 1 ==> ScanStart(w.first.at).phase == 0)
    {
      hide FirstPassing, Sweeps, Slot;
      ghost var at := Setting(turn, p0, 0);
      BeyondIsLater(at, w.origin);
      ghost var moved;
      found, v, p, workBgn, workEnd, moved := FindEnd(v0, i, p0, workBgn0, work, w.origin, Lag(w.first.at));
      RefinedKept(old(trace), trace, w.first, w.refined);
      w' := w.(scan := old(tests), begin := if moved then Edge(trace[old(tests)], old(tests)) else w.refined, moved := moved, workBgn := workBgn);
    }

    /** Later tests do not change the refined edge. */
    lemma RefinedKept(tr: seq<Setting>, later: seq<Setting>, first: Edge, r: Edge)
      requires tr <= later && RefinedEdge(tr, first, r)
      ensures RefinedEdge(later, first, r)
    {
      forall k: nat | TapFailed(tr, first, k) ensures TapFailed(later, first, k) {
      }
    }

    lemma FirstKept(tr: seq<Setting>, later: seq<Setting>, failing: nat, first: Edge, origin: int)
      requires tr <= later && FirstPassing(tr, failing, first, origin)
      ensures FirstPassing(later, failing, first, origin)
    {
      SweepsKept(tr, later, failing, tr[failing - 1].turn, first.at.tap);
    }

    lemma BeginKept(tr: seq<Setting>, later: seq<Setting>, w: Window)
      requires tr <= later && BeginEdge(tr, w)
      ensures BeginEdge(later, w)
    {
      RefinedKept(tr, later, w.first, w.refined);
    }

    lemma EndPhaseKept(tr: seq<Setting>, later: seq<Setting>, w: Window, end: Setting)
      requires tr <= later && EndPhase(tr, w, end)
      ensures EndPhase(later, w, end)
    {
    }

    /** Later tests do not change what was measured. */
    lemma StillMeasured(w: Window, tr: seq<Setting>, later: seq<Setting>)
      requires tr <= later && Measured(tr, w)
      ensures Measured(later, w)
    {
      hide FirstPassing, BeginEdge, EndPhase;
      FirstKept(tr, later, w.failing, w.first, w.origin);
      BeginKept(tr, later, w);
      EndPhaseKept(tr, later, w, w.end.(tap := w.first.at.tap));
    }

    /** Steps 3a to 5a, for a window found without any delay tap. */
    method PhaseWindow(v0: nat, p0: nat, work: nat, i: nat, ghost w: Window)
      returns (found: bool, v: nat, p: nat, workBgn: nat, workEnd: nat, ghost w': Window)
      requires Valid() && Tracks(v0) && ReadAt(trace, w.first, true) && 1 <= p0 <= phaseMax && w.first.test + 1 == tests
      requires w.first.at == Setting(turn, p0, 0) && turn == w.origin + i && i < size && work == SettingDelay(w.first.at, w.origin)
      modifies this
      ensures Valid() && Tracks(v) && opa <= workBgn && opa <= workEnd && old(trace) <= trace
      ensures w'.origin == w.origin && w'.failing == w.failing && w'.first == w.first && w'.workBgn == workBgn
      ensures BeginEdge(trace, w') && w'.stop == tests - 1 && w'.ext == tests
      ensures !found ==> ScannedOn(trace, w') && AtRest(1)
      ensures found ==>
        && 1 <= p <= phaseMax && phase == p && delay == 0 && EndPhase(trace, w', Setting(turn, p, 0))
        && At(Taps(turn - w.origin, p)) == workEnd + Lag(w.first.at)
        && (!w'.moved ==> workBgn <= workEnd)
    {
      hide FirstPassing, Sweeps, Slot, RefinedEdge, Consecutive, Chain, Times;
      ghost var refined;
      v, p, workBgn, refined := RefineEdge(v0, w.first, p0, work, i, w.origin);
      SetDelay(0);
      found, v, p, workBgn, workEnd, w' := ScanToEnd(v, i, p, workBgn, work, w.(refined := refined));
      w' := w'.(stop := tests - 1, ext := tests);
      if found {
        v, p, workEnd := BackOffEnd(v, p, workEnd, w.origin, Lag(w.first.at));
      }
    }

    /** No failing read ended the scan, which went on to the same slots again. */
    ghost predicate ScannedOn(tr: seq<Setting>, w: Window)
    {
      && w.first.at.tap == 0 && 0 < |tr| && Scanned(tr, w, |tr| - 1) && PassedOn(w, |tr|)
      && tr[|tr| - 1].phase == phaseMax && tr[|tr| - 1].turn == ScanStart(w.first.at).turn + (w.origin + size - w.first.at.turn)
    }

    /** The extension from the window's first delay tap on, at the setting where the scan ended. */
    method MeasureEnd(ghost w: Window, d0: nat, workEnd0: nat) returns (d: nat, workEnd: nat, ghost w': Window)
      requires Valid() && d0 <= delayMax && opa <= workEnd0 && 1 <= phase <= phaseMax && w.first.at.tap == d0
      requires tests == w.ext && EndPhase(trace, w, Setting(turn, phase, d0))
      requires SettingDelay(Setting(turn, phase, d0), w.origin) == workEnd0 + Lag(w.first.at)
      modifies this`tests, this`trace, this`delay, this`delays
      ensures Valid() && d0 <= d <= delayMax + 1 && old(trace) <= trace
      ensures w' == w.(taps := d, end := w'.end, workEnd := workEnd) && EndEdge(trace, w')
      ensures w'.end.phase == phase && w'.end.turn == turn && tests == Tracking(w') && AtRest(0)
      ensures workEnd < workEnd0 ==> 0 < d0 == d
    {
      hide EndPhase;
      d, workEnd := ExtendEnd(d0, workEnd0);
      ghost var end := Setting(turn, phase, if d == 0 then 0 else d - 1);
      ExtendedEnd(d0, d, end.tap);
      EndPhaseKept(old(trace), trace, w, Setting(turn, phase, d0));
      w' := w.(taps := d, end := end, workEnd := workEnd);
      SamePhase(trace, w, w', Setting(turn, phase, d0));
      if d0 < d { ChainNonNegative(d - d0 - 1); ChainStep(d - d0 - 1); }
    }

    lemma SamePhase(tr: seq<Setting>, w: Window, w': Window, end: Setting)
      requires EndPhase(tr, w, end) && w' == w.(taps := w'.taps, end := w'.end, workEnd := w'.workEnd)
      ensures EndPhase(tr, w', end)
    {
    }

    /** The first test after the extension of the end edge. */
    function Tracking(w: Window): int
    {
      w.ext + (w.taps - w.first.at.tap) + if w.taps <= delayMax then 1 else 0
    }

    /** Step 2 with what it says of the begin edge. */
    method FirstSetting(v0: nat, dtaps: nat)
      returns (found: bool, v: nat, i: nat, p: nat, d: nat, work: nat, ghost origin: int, ghost first: Edge)
      requires Valid() && Tracks(v0) && dtaps <= delayMax && PerPhase(dtaps) && 0 < tests && trace[tests - 1].turn == turn
      modifies this
      ensures Valid() && Tracks(v) && old(trace) <= trace
      ensures !found ==> NoneFound(trace, old(tests), dtaps) && AtRest(1)
      ensures found ==>
        && FirstPassing(trace, old(tests), first, origin) && first.test + 1 == tests
        && first.at == Setting(turn, p, d) && turn == origin + i && i < size && phase == p && delay == d
        && work == SettingDelay(first.at, origin) && opa <= work
    {
      hide Slot, Sweeps, At;
      found, v, i, p, d, work, origin := FindBegin(v0, dtaps);
      first := Edge(Setting(turn, p, d), 0);
      if found {
        first := first.(test := tests - 1);
        BeginIsLate(i, p);
        ChainNonNegative(d);
        TimesMonotonic(d, dtaps, dchain);
      } else {
        SomeTests(dtaps);
      }
    }

    /** Every setting of every delay tap up to dtaps was tried and failed. */
    ghost predicate NoneFound(tr: seq<Setting>, failing: nat, dtaps: nat)
    {
      && 0 < failing < |tr| && |tr| == failing + Times(dtaps + 1, PerSweep()) && Sweeps(tr, failing, tr[failing - 1].turn, dtaps + 1)
      && forall n :: failing <= n < |tr| ==> !verdict(n)
    }

    lemma SomeTests(dtaps: nat)
      requires 0 < size && 0 < phaseMax
      ensures 0 < Times(dtaps + 1, PerSweep())
    {
      TimesMonotonic(1, size, phaseMax);
      TimesMonotonic(1, dtaps + 1, PerSweep());
    }

    /** Steps 2 to 5a: the begin edge, and the slot and phase at which the end is looked for. */
    method BeginWindow(v0: nat, dtaps: nat)
      returns (found: bool, v: nat, p: nat, d: nat, workBgn: nat, workEnd: nat, ghost e: Ending)
      requires Valid() && Tracks(v0) && dtaps <= delayMax && PerPhase(dtaps) && 0 < tests && trace[tests - 1].turn == turn
      modifies this
      ensures Valid() && Tracks(v) && old(trace) <= trace
      ensures !found ==> NoWindow(trace, e, old(tests), dtaps) && AtRest(1)
      ensures found ==> e.NilRange? && Begun(trace, e.w) && e.w.failing == old(tests) && e.w.ext == tests && e.w.workBgn == workBgn
      ensures found ==>
        && 1 <= p <= phaseMax && phase == p && e.w.first.at.tap == d <= delayMax && opa <= workEnd
        && EndPhase(trace, e.w, Setting(turn, p, d)) && SettingDelay(Setting(turn, p, d), e.w.origin) == workEnd + Lag(e.w.first.at)
        && (workEnd < workBgn ==> e.w.moved)
    {
      hide FirstPassing, Sweeps, Slot, Scanned, ScannedOn;
      var i;
      ghost var origin, first;
      workEnd := 0;
      found, v, i, p, d, workBgn, origin, first := FirstSetting(v0, dtaps);
      if !found {
        e := NoBegin(old(tests), dtaps);
        return;
      }
      ghost var tr := trace;
      FirstReads(trace, old(tests), first, origin);
      ghost var w := Window(origin, old(tests), first, first, 0, first, false, tests - 1, tests, 0, Setting(0, 0, 0), workBgn, 0);
      workEnd := workBgn;
      if d == 0 {
        found, v, p, workBgn, workEnd, w := PhaseWindow(v, p, workBgn, i, w);
      }
      FirstKept(tr, trace, old(tests), first, origin);
      e := if found then NilRange(w) else NoEnd(w);
    }

    lemma FirstReads(tr: seq<Setting>, failing: nat, first: Edge, origin: int)
      requires FirstPassing(tr, failing, first, origin)
      ensures ReadAt(tr, first, true) && 1 <= first.at.phase <= phaseMax && 0 <= first.at.tap <= delayMax
    {
    }

    /** The part of a window that is known once its begin edge is. */
    ghost predicate Begun(tr: seq<Setting>, w: Window)
    {
      opa <= w.workBgn && FirstPassing(tr, w.failing, w.first, w.origin) && BeginEdge(tr, w)
    }

    /** Steps 2 to 5: both edges of the window; d is the delay tap at which the end search stopped. */
    method MeasureWindow(v0: nat, dtaps: nat)
      returns (found: bool, v: nat, p: nat, d: nat, workBgn: nat, workEnd: nat, ghost e: Ending)
      requires Valid() && Tracks(v0) && dtaps <= delayMax && PerPhase(dtaps) && 0 < tests && trace[tests - 1].turn == turn
      modifies this
      ensures Valid() && Tracks(v) && old(trace) <= trace
      ensures found ==>
        && e.NilRange? && e.w.failing == old(tests) && Measured(trace, e.w) && tests == Tracking(e.w)
        && e.w.workBgn == workBgn && e.w.workEnd == workEnd && e.w.taps == d <= delayMax + 1
        && 1 <= e.w.end.phase == p <= phaseMax && e.w.end.turn == turn
        && (workEnd < workBgn ==> e.w.moved || (0 < e.w.first.at.tap == d))
      ensures !found ==> NoWindow(trace, e, old(tests), dtaps) && AtRest(1)
      ensures found ==> AtRest(0)
    {
      hide FirstPassing, BeginEdge, EndPhase, Slot;
      found, v, p, d, workBgn, workEnd, e := BeginWindow(v0, dtaps);
      if found {
        ghost var w, w0, tr := e.w, e.w, trace;
        d, workEnd, w := MeasureEnd(w, d, workEnd);
        FirstKept(tr, trace, w.failing, w.first, w.origin);
        BeginKept(tr, trace, w0);
        SameBegin(trace, w0, w);
        e := NilRange(w);
      }
    }

    lemma SameBegin(tr: seq<Setting>, w: Window, w': Window)
      requires BeginEdge(tr, w) && w' == w.(taps := w'.taps, end := w'.end, workEnd := w'.workEnd)
      ensures BeginEdge(tr, w')
    {
    }

    /** The search gave up before it had seen both edges. */
    ghost predicate NoWindow(tr: seq<Setting>, e: Ending, failing: nat, dtaps: nat)
    {
      match e
      case NoBegin(f, d) => f == failing && d == dtaps && NoneFound(tr, failing, dtaps)
      case NoEnd(w) => w.failing == failing && Begun(tr, w) && ScannedOn(tr, w)
      case _ => false
    }

    lemma ExtendedEnd(d0: int, d: int, endTap: int)
      requires endTap == if d == 0 then 0 else d - 1
      requires d == 0 ==> d0 == 0
      ensures Chain(endTap) == Chain(d0) + Chain(d - d0) - (if d == 0 then 0 else dchain)
    {
      ChainStep(d - 1);
      TimesAdd(d - d0, d0, dchain);
    }

    /** The recorded end is the end setting's delay, except for a window that begins at phase 1 without delay. */
    ghost predicate EndIsExactUnless(w: Window)
    {
      var short := w.first.at.tap == 0 && w.first.at.phase == 1;
      && (w.workEnd == SettingDelay(w.end, w.origin) <==> !short)
      && (short ==> w.workEnd + opa == SettingDelay(w.end, w.origin))
    }

    /** How the search ended, in terms of the trace of its tests, the first of which is number `start`. */
    ghost predicate Ended(tr: seq<Setting>, e: Ending, start: nat)
    {
      match e
      case NoFailure => |tr| == start + size && Failures(start, |tr|) < 2 && Stepped(tr, start, |tr|)
      case NoBegin(failing, dtaps) => SecondFailure(tr, start, failing) && PerPhase(dtaps) && NoneFound(tr, failing, dtaps)
      case NoEnd(w) => SecondFailure(tr, start, w.failing) && Begun(tr, w) && ScannedOn(tr, w)
      case NilRange(w) => SecondFailure(tr, start, w.failing) && Measured(tr, w) && w.workEnd < w.workBgn
                          && (w.moved || (0 < w.first.at.tap == w.taps))
      case NoPass(w, mid, cycles, p, d, from) =>
        && SecondFailure(tr, start, w.failing) && Measured(tr, w) && w.workBgn <= w.workEnd && Tracked(tr, w, from)
        && Centered(p, d, w.workBgn, w.workEnd, mid, cycles) && Pushed(tr, from, |tr|, p, d) && |tr| == from + size
      case Centred(w, mid, cycles, p, d, from) =>
        && SecondFailure(tr, start, w.failing) && Measured(tr, w) && w.workBgn <= w.workEnd && Tracked(tr, w, from)
        && Centered(p, d, w.workBgn, w.workEnd, mid, cycles) && Pushed(tr, from, |tr| - 1, p, d) && |tr| <= from + size
        && ReadAt(tr, Edge(Setting(tr[from].turn + (|tr| - 1 - from), p, d), |tr| - 1), true)
    }

    /** Tests start to to - 1 were made at phase 1 without delay, slot after slot. */
    ghost predicate Stepped(tr: seq<Setting>, start: nat, to: nat)
    {
      start <= to <= |tr| && forall n :: start <= n < to ==> tr[n] == Setting(n - start, 1, 0)
    }

    /** Test failing - 1 is the second failing one since test start. */
    ghost predicate SecondFailure(tr: seq<Setting>, start: nat, failing: nat)
    {
      start < failing && Failures(start, failing) == 2 && !verdict(failing - 1) && Stepped(tr, start, failing)
    }

    /**
     The tests for run-time tracking, at the usable phase before the end edge's: up to the first that fails after one
     that passed, or to the end of the chain.
     */
    ghost predicate Tracked(tr: seq<Setting>, w: Window, from: nat)
    {
      && 0 <= Tracking(w) <= from <= |tr| && !PassedThenFailed(Tracking(w), from - 1)
      && (PassedThenFailed(Tracking(w), from) || from == Tracking(w) + (delayMax + 1 - w.taps))
      && forall n :: Tracking(w) <= n < from ==>
           tr[n].tap == w.taps + (n - Tracking(w)) <= delayMax && NextUsable(tr[n].(tap := 0)) == w.end.(tap := 0)
    }

    /** The delay taps per phase tap the search reports: measured by the tracking tests if they saw an edge, else computed. */
    ghost predicate ReportedTaps(e: Ending, dtaps: nat)
    {
      if (e.Centred? || e.NoPass?) && 0 <= Tracking(e.w) <= e.from && PassedThenFailed(Tracking(e.w), e.from) then
        dtaps == e.from - Tracking(e.w) - 1
      else
        PerPhase(dtaps)
    }

    /** How many slots the search ends beyond its last read test: a slot that failed is left before the next test. */
    function Beyonds(e: Ending): int { if e.Centred? || e.NilRange? then 0 else 1 }

    /** From test `from` on the centre's setting was tested slot after slot; the tests before test to failed. */
    ghost predicate Pushed(tr: seq<Setting>, from: nat, to: int, p: int, d: int)
    {
      && from < |tr| && from <= to <= |tr|
      && (forall n :: from <= n < |tr| ==> tr[n] == Setting(tr[from].turn + (n - from), p, d))
      && forall n :: from <= n < to ==> !verdict(n)
    }

    /**
     The whole search. It succeeds on a passing read at the final setting, the centre of the window
     whose two edges were measured; otherwise it says why it failed. The recorded end is exact if and
     only if the window does not begin at phase 1 without delay; then it is one phase tap short.
     */
    method FindDqsEnPhase() returns (ok: bool, v: nat, dtapsPerPtap: nat, ghost e: Ending)
      requires Valid() && turn == 0
      modifies this
      ensures Valid() && Tracks(v) && dtapsPerPtap <= delayMax && old(trace) <= trace
      ensures Ended(trace, e, old(tests)) && (ok <==> e.Centred?) && (ok ==> phase == e.p && delay == e.d)
      ensures AtRest(Beyonds(e)) && ReportedTaps(e, dtapsPerPtap)
      ensures ok ==> EndIsExactUnless(e.w)
    {
      hide Measured, Begun, Tracked, NoneFound, ScannedOn, Centered, Slot;
      ok := false;
      SetDelay(0);
      SetPhase(1);
      dtapsPerPtap := DtapsPerPtap();
      var found;
      found, v := PushToFailing();
      if !found {
        e := NoFailure;
        return;
      }
      ok, v, dtapsPerPtap, e := SearchWindow(v, dtapsPerPtap, old(tests));
    }

    /** Steps 2 to 6, once the VFIFO stands on a failing read. */
    method SearchWindow(v0: nat, static0: nat, ghost start: nat) returns (ok: bool, v: nat, dtapsPerPtap: nat, ghost e: Ending)
      requires Valid() && Tracks(v0) && static0 <= delayMax && PerPhase(static0)
      requires SecondFailure(trace, start, tests) && trace[tests - 1].turn == turn
      modifies this
      ensures Valid() && Tracks(v) && dtapsPerPtap <= delayMax && old(trace) <= trace
      ensures Ended(trace, e, start) && (ok <==> e.Centred?) && (ok ==> phase == e.p && delay == e.d)
      ensures AtRest(Beyonds(e)) && ReportedTaps(e, dtapsPerPtap)
      ensures ok ==> EndIsExactUnless(e.w)
    {
      hide Ended, NoWindow, Slot, Centered, EndIsExactUnless, Tracked, PerPhase, FirstPassing, BeginEdge, EndEdge;
      ok, dtapsPerPtap := false, static0;
      var found, p, d, workBgn, workEnd;
      found, v, p, d, workBgn, workEnd, e := MeasureWindow(v0, static0);
      if !found || workEnd < workBgn {
        GaveUp(trace, e, start, old(tests), static0, found);
        return;
      }
      ok, v, dtapsPerPtap, e := UseWindow(v, p, d, workBgn, workEnd, static0, e.w, start);
    }

    /** A search without a usable window has ended. */
    lemma GaveUp(tr: seq<Setting>, e: Ending, start: nat, failing: nat, dtaps: nat, found: bool)
      requires SecondFailure(tr, start, failing) && PerPhase(dtaps)
      requires if found then e.NilRange? && e.w.failing == failing && Measured(tr, e.w) && e.w.workEnd < e.w.workBgn
                             && (e.w.moved || (0 < e.w.first.at.tap == e.w.taps))
               else NoWindow(tr, e, failing, dtaps)
      ensures Ended(tr, e, start) && Beyonds(e) == (if found then 0 else 1) && ReportedTaps(e, dtaps) && !e.Centred?
    {
    }

    /** Tracking, centering and the final push, for a window that is not nil. */
    method UseWindow(v0: nat, p: nat, d: nat, workBgn: nat, workEnd: nat, static0: nat, ghost w: Window, ghost start: nat)
      returns (ok: bool, v: nat, dtapsPerPtap: nat, ghost e: Ending)
      requires Valid() && Tracks(v0) && 1 <= p <= phaseMax && d <= delayMax + 1 && static0 <= delayMax && PerPhase(static0)
      requires SecondFailure(trace, start, w.failing) && Measured(trace, w) && tests == Tracking(w)
      requires w.workBgn == workBgn <= workEnd == w.workEnd && w.end.turn == turn && w.end.phase == p && w.taps == d
      modifies this
      ensures Valid() && Tracks(v) && dtapsPerPtap <= delayMax && old(trace) <= trace
      ensures Ended(trace, e, start) && (ok <==> e.Centred?) && (ok ==> phase == e.p && delay == e.d)
      ensures AtRest(Beyonds(e)) && ReportedTaps(e, dtapsPerPtap)
      ensures ok ==> EndIsExactUnless(e.w)
    {
      hide Ended, Slot, Centered, FirstPassing, BeginEdge, Tracked;
      ghost var mid, cycles, from;
      ok, v, dtapsPerPtap, mid, cycles, from := TrackAndCenter(v0, p, d, workBgn, workEnd, static0, w);
      e := WindowUsed(ok, old(trace), trace, w, start, mid, cycles, phase, delay, from);
    }

    /** The steps after a window is known; the final push starts with test `from`. */
    method TrackAndCenter(v0: nat, p: nat, d: nat, workBgn: nat, workEnd: nat, static0: nat, ghost w: Window)
      returns (ok: bool, v: nat, dtapsPerPtap: nat, ghost mid: int, ghost cycles: int, ghost from: nat)
      requires Valid() && Tracks(v0) && 1 <= p <= phaseMax && d <= delayMax + 1 && static0 <= delayMax
      requires opa <= workBgn <= workEnd && tests == Tracking(w) && w.taps == d && w.end.turn == turn && w.end.phase == p
      modifies this
      ensures Valid() && Tracks(v) && dtapsPerPtap <= delayMax && old(trace) <= trace && old(tests) <= from <= tests
      ensures Tracked(trace, w, from)
      ensures Centered(phase, delay, workBgn, workEnd, mid, cycles)
      ensures Pushed(trace, from, if ok then tests - 1 else tests, phase, delay) && tests <= from + size
      ensures if ok then JustPassed() else tests == from + size
      ensures AtRest(if ok then 0 else 1)
      ensures dtapsPerPtap == if PassedThenFailed(Tracking(w), from) then from - Tracking(w) - 1 else static0
    {
      hide Centered, Slot;
      v, dtapsPerPtap := MeasureTracking(v0, p, d, static0);
      mid, cycles := Center(workBgn, workEnd);
      from := tests;
      ok, v := PushToPassing(v);
    }

    lemma SecondFailureKept(tr: seq<Setting>, later: seq<Setting>, start: nat, failing: nat)
      requires tr <= later && SecondFailure(tr, start, failing)
      ensures SecondFailure(later, start, failing)
    {
    }

    /** A search that found a window has ended. */
    lemma WindowUsed(ok: bool, known: seq<Setting>, tr: seq<Setting>, w: Window, start: nat, mid: int, cycles: int, p: int, d: int, from: nat)
      returns (e: Ending)
      requires known <= tr && SecondFailure(known, start, w.failing) && Measured(known, w) && w.workBgn <= w.workEnd
      requires Centered(p, d, w.workBgn, w.workEnd, mid, cycles) && |known| == Tracking(w) <= from <= |tr| <= from + size
      requires Tracked(tr, w, from)
      requires from < |tr| && Pushed(tr, from, if ok then |tr| - 1 else |tr|, p, d) && if ok then verdict(|tr| - 1) else |tr| == from + size
      ensures Ended(tr, e, start) && (ok <==> e.Centred?) && (!ok ==> e.NoPass?) && e.w == w && e.from == from && (ok ==> e.p == p && e.d == d)
    {
      hide Measured, Centered, SecondFailure, Tracked;
      StillMeasured(w, known, tr);
      SecondFailureKept(known, tr, start, w.failing);
      e := if ok then Centred(w, mid, cycles, p, d, from) else NoPass(w, mid, cycles, p, d, from);
    }

    /** The two failing reads, and the ones that pass, of a stream that fails at tests 0, 1 and 5 only. */
    ghost predicate FailsAt015()
    {
      forall n: nat :: verdict(n) <==> n != 0 && n != 1 && n != 5
    }

    lemma FailuresGrow(from: nat, mid: nat, to: nat)
      requires from <= mid <= to
      ensures Failures(from, mid) <= Failures(from, to)
    {
      if mid < to { FailuresGrow(from, mid, to - 1); }
    }

    lemma SecondFailureIsAtOne(tr: seq<Setting>, failing: nat)
      requires FailsAt015() && SecondFailure(tr, 0, failing)
      ensures failing == 2
    {
      assert Failures(0, 1) == 1 && Failures(0, 2) == 2;
      if failing > 2 { FailuresGrow(0, 2, failing - 1); }
    }

    lemma StreamAt(n: nat)
      requires FailsAt015()
      ensures verdict(n) <==> n != 0 && n != 1 && n != 5
    {
    }

    lemma FirstIsPhaseOne(tr: seq<Setting>, first: Edge, origin: int)
      requires FailsAt015() && FirstPassing(tr, 2, first, origin) && 0 < size && 0 < phaseMax
      ensures first.test == 2 && first.at.tap == 0 && first.at.phase == 1 && first.at.turn == origin
    {
      assert verdict(2);
      TimesMonotonic(1, size, phaseMax);
      TimesNonNegative(first.at.turn - origin, phaseMax);
      if 1 <= first.at.tap {
        TimesMonotonic(1, first.at.tap, PerSweep());
      }
    }

    lemma ScanIsLong(tr: seq<Setting>, w: Window)
      requires 2 <= size && 3 <= phaseMax && w.first.at.phase == 1 && w.first.at.turn == w.origin && w.first.at.tap == 0
      requires w.scan == 3 && ScannedOn(tr, w)
      ensures 5 < |tr|
    {
      var last := |tr| - 1;
      assert last > 3 ==> tr[4] == NextUsable(tr[3]);
    }

    /** Its scan passes tests 3 and 4 and stops at the fifth. */
    lemma ScanStopsAtFive(tr: seq<Setting>, w: Window)
      requires FailsAt015() && 2 <= size && 3 <= phaseMax && w.first.test == 2 && w.first.at.tap == 0 && w.first.at.phase == 1
      requires w.first.at.turn == w.origin && BeginEdge(tr, w)
      ensures !ScannedOn(tr, w) && forall end :: EndPhase(tr, w, end) ==> w.ext == 6 && !w.moved
    {
      if Scanned(tr, w, w.stop) || ScannedOn(tr, w) {
        assert w.scan == 3 && tr[3] == Setting(w.origin, 3, 0);
        StreamAt(w.stop);
      }
      StreamAt(5);
      if ScannedOn(tr, w) { ScanIsLong(tr, w); }
    }

    lemma PushPasses(tr: seq<Setting>, from: nat, p: int, d: int)
      requires FailsAt015()
      ensures 6 <= from ==> !Pushed(tr, from, |tr|, p, d)
    {
      StreamAt(from);
    }

    /** On that stream the search succeeds with a window from phase 1 without delay. */
    lemma ShortWindowFound(tr: seq<Setting>, e: Ending)
      requires 2 <= size && 3 <= phaseMax && FailsAt015() && Ended(tr, e, 0)
      ensures e.Centred? && e.w.first.at.tap == 0 && e.w.first.at.phase == 1
    {
      hide FirstPassing, BeginEdge, EndPhase, ScannedOn, Sweeps, Centered, Stepped;
      assert Failures(0, 1) == 1 && Failures(0, 2) == 2;
      StreamAt(2);
      if e.NoPass? { PushPasses(tr, e.from, e.p, e.d); }
      match e
      case NoFailure =>
        FailuresGrow(0, 2, size);
      case NoBegin(failing, _) =>
        SecondFailureIsAtOne(tr, failing);
      case _ =>
        var w := e.w;
        SecondFailureIsAtOne(tr, w.failing);
        FirstIsPhaseOne(tr, w.first, w.origin);
        ScanStopsAtFive(tr, w);
    }

    /** After centering: push the VFIFO until a read passes. */
    method PushToPassing(v0: nat) returns (ok: bool, v: nat)
      requires Valid() && Tracks(v0)
      modifies this`tests, this`trace, this`pointer, this`turn
      ensures Valid() && Tracks(v)
      ensures old(trace) <= trace && old(tests) < tests <= old(tests) + size && (ok ==> JustPassed()) && (!ok ==> tests == old(tests) + size)
      ensures forall n :: old(tests) <= n < tests ==> trace[n] == Setting(old(turn) + (n - old(tests)), phase, delay)
      ensures forall n :: old(tests) <= n < tests - (if ok then 1 else 0) ==> !verdict(n)
      ensures AtRest(if ok then 0 else 1)
    {
      v := v0;
      for i := 0 to size
        invariant Valid() && Tracks(v) && tests == old(tests) + i && old(trace) <= trace && turn == old(turn) + i
        invariant forall n :: old(tests) <= n < tests ==> !verdict(n) && trace[n] == Setting(old(turn) + (n - old(tests)), phase, delay)
      {
        var passed := ReadTest();
        if passed {
          return true, v;
        }
        v := IncrVfifo(v);
      }
      ok := false;
    }

    /** Step 0: how many whole delay taps fit below one phase tap. */
    method DtapsPerPtap() returns (n: nat)
      requires Valid()
      ensures n <= delayMax && Chain(n) < opa <= Chain(n + 1)
    {
      n := 0;
      var tmpDelay := 0;
      while tmpDelay < opa
        invariant tmpDelay == Chain(n) && n <= delayMax + 1
        invariant n > 0 ==> Chain(n - 1) < opa
      {
        TapsCover(n);
        n := n + 1;
        tmpDelay := tmpDelay + dchain;
      }
      n := n - 1;
    }
  }

  /**
   A run, with the shipped tap delays, that records the end of its window one phase tap short: reads fail at
   tests 0, 1 and 5 only.
   */
  method ShortEndRecorded() returns (s: EnableSearch, ok: bool, ghost w: Window)
    ensures ok && s.Measured(s.trace, w)
    ensures w.workEnd + 312 == s.SettingDelay(w.end, w.origin)
  {
    ChainOf31();
    s := new EnableSearch(16, 7, 31, 312, 25, 0, n => n != 0 && n != 1 && n != 5);
    var v, dtaps;
    ghost var e;
    ok, v, dtaps, e := s.FindDqsEnPhase();
    s.ShortWindowFound(s.trace, e);
    w := e.w;
  }

  lemma ChainOf31()
    ensures Times(31, 25) == 775
  {
    TimesIsProduct(31, 25);
  }
}
