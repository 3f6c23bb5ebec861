/**
 The group-by-group calibration driver. It runs the DQS-enable search, read centering, write centering and read
 centering after writes on the registers of each group, and keeps the first error it meets.

 The eyes the tests face are arbitrary: one for each attempt at read calibration, and one for each
 group's writes, mask and final reads.
 */
module Calibration {
  import opened DmSearch
  import opened DqsEnable
  import opened EyeCentering
  import opened EyeSweep
  import opened GroupBank
  import opened IntegerArithmetic
  import opened Results

  // Stages
  const NIL := 0
  const VFIFO := 1
  const LFIFO := 3
  const WRITES := 4
  const VFIFO_AFTER_WRITES := 9

  // Substages
  const GUARANTEED_READ := 1
  const DQS_EN_PHASE := 2
  const VFIFO_CENTER := 3
  const WRITES_CENTER := 1
  const READ_LATENCY := 1

  /**
   One attempt at read calibration: the search, its trace and ending, the output delay it was made at, the strobe delay the pass
   over the strobe delays started from, the one the search ran at, the data delays meanwhile, and the centering if it came to that.
   */
  datatype Attempt = Attempt(search: EnableSearch, tr: seq<Setting>, e: Ending, out: nat, orig: int, strobe: int, spread: seq<int>,
                             reading: Option<Record>)

  /** The strobe delay an attempt leaves. */
  function StrobeLeft(a: Attempt): int { if a.reading.Some? then a.reading.value.strobe else a.strobe }

  /** The VFIFO slot an attempt leaves: that of its search's last read test, or the one after it. */
  function SlotLeft(a: Attempt): int
  {
    if a.tr == [] || a.search.size == 0 then 0
    else Slot(a.search.entry + a.tr[|a.tr| - 1].turn + a.search.Beyonds(a.e), a.search.size)
  }

  /** The attempts made at each output delay. */
  type Visits = seq<seq<Attempt>>

  function LastAttempt(vs: Visits): Option<Attempt>
  {
    if vs == [] then None
    else
      var k := |vs| - 1;
      if vs[k] == [] then LastAttempt(vs[..k]) else Some(vs[k][|vs[k]| - 1])
  }

  /** How many attempts that were. */
  function Count(vs: Visits): nat { if vs == [] then 0 else Count(vs[..|vs| - 1]) + |vs[|vs| - 1]| }

  /**
   One group's calibration: the numbers of its first attempt and of its first guaranteed read, the VFIFO slot it found, its
   attempts, and the write centering and final read centering that followed if it came to that.
   */
  datatype GroupRun = GroupRun(first: nat, read: nat, slot: int, visits: Visits, wrote: Option<Record>, ended: Option<Record>)

  type Runs = map<nat, GroupRun>

  /** Attempts, and guaranteed reads, of the groups below h. */
  function AttemptsBelow(h: nat, runs: Runs): nat
  {
    if h == 0 then 0 else AttemptsBelow(h - 1, runs) + if h - 1 in runs then Count(runs[h - 1].visits) else 0
  }

  function ReadsBelow(h: nat, runs: Runs): nat
  {
    if h == 0 then 0 else ReadsBelow(h - 1, runs) + if h - 1 in runs then |runs[h - 1].visits| else 0
  }

  /** What the sequencer keeps of errors. */
  datatype Error = Error(stage: int, substage: int, group: int)

  const NO_ERROR := Error(NIL, 0, 0xff)

  /** The record e0 once e has been reported: the first error stays. */
  function Then(e0: Error, e: Error): Error { if e0.stage != NIL || e.stage == NIL then e0 else e }

  class Calibrator {
    const limits: Limits
    const skipGroups: nat -> bool         // groups the caller masks out
    const maskSet: bool                   // some bit of the mask is set, perhaps beyond the last group
    const skipShadow: bool                // the caller masks out the shadow register set
    const sweepAll: bool                  // keep going after a failing group
    const checkGuaranteed: bool           // guaranteed reads are enabled
    const guaranteed: nat -> bool         // outcome of the n-th guaranteed read
    const verdicts: nat -> nat -> bool    // the read tests of the n-th attempt's search
    const readEye: nat -> Eye             // the eye of the n-th attempt's read centering
    const writeEye: nat -> Eye            // the eyes of a group's write centering and final read centering
    const maskEye: nat -> int -> bool
    const endEye: nat -> Eye
    const latency: bool                   // outcome of the latency search

    var error: Error
    var readTests: nat                    // guaranteed reads so far
    var attempt: nat                      // attempts at read calibration so far

    constructor (limits: Limits, skipGroups: nat -> bool, maskSet: bool, skipShadow: bool, sweepAll: bool,
                 checkGuaranteed: bool, guaranteed: nat -> bool,
                 verdicts: nat -> nat -> bool, readEye: nat -> Eye, writeEye: nat -> Eye, maskEye: nat -> int -> bool, endEye: nat -> Eye,
                 latency: bool)
      ensures this.limits == limits && this.skipGroups == skipGroups && this.maskSet == maskSet
      ensures this.skipShadow == skipShadow && this.sweepAll == sweepAll
      ensures this.checkGuaranteed == checkGuaranteed && this.guaranteed == guaranteed && this.verdicts == verdicts
      ensures this.readEye == readEye && this.writeEye == writeEye && this.maskEye == maskEye && this.endEye == endEye
      ensures this.latency == latency && error == NO_ERROR && readTests == attempt == 0
    {
      this.limits, this.skipGroups, this.maskSet := limits, skipGroups, maskSet;
      this.skipShadow, this.sweepAll, this.checkGuaranteed := skipShadow, sweepAll, checkGuaranteed;
      this.guaranteed, this.verdicts, this.readEye := guaranteed, verdicts, readEye;
      this.writeEye, this.maskEye, this.endEye, this.latency := writeEye, maskEye, endEye, latency;
      error, readTests, attempt := NO_ERROR, 0, 0;
    }

    method SetFailingGroupStage(group: int, stage: int, substage: int)
      requires stage != NIL
      modifies this`error
      ensures error == Then(old(error), Error(stage, substage, group))
    {
      if error.stage == NIL {
        error := Error(stage, substage, group);
      }
    }

    // ---- What an attempt stands for ----

    /** The attempt ended as it should: a setting, and unless skipped, every pin inside its window. */
    ghost predicate Succeeded(a: Attempt)
    {
      a.e.Centred? && (skipShadow || (a.reading.Some? && Good(a.reading.value)))
    }

    /** The attempt's centering met a pin without a window. */
    ghost predicate Misses(a: Attempt) { a.reading.Some? && !AllEdges(a.reading.value) }

    /** The substage a failing attempt stands for. */
    function FailedSubstage(a: Attempt): int { if a.e.Centred? then VFIFO_CENTER else DQS_EN_PHASE }

    /**
     Attempt n searched with its own verdicts, the data delays in a staircase, and centered in its own eye from the strobe
     delay its pass started from.
     */
    ghost predicate TrueAttempt(a: Attempt, n: nat)
    {
      && SearchTrue(a.search, a.tr, a.e, verdicts(n), limits)
      && Staircase(a.spread, limits)
      && (a.reading.Some? <==> a.e.Centred? && !skipShadow)
      && (a.reading.Some? ==> ReadRecord(a.reading.value, readEye(n), limits.bits, limits.inMax) && a.reading.value.start == a.orig)
    }

    /** The error a centering reports about pins of group g: the first pin without a window. */
    ghost function PinError(r: Record, g: nat, stage: int, substage: int): Error
    {
      if |r.left| == |r.right| && !AllEdges(r) then Error(stage, substage, Times(g, limits.bits) + MissingPin(r, 0)) else NO_ERROR
    }

    ghost function AttemptError(a: Attempt, g: nat): Error
    {
      if a.reading.Some? then PinError(a.reading.value, g, VFIFO, VFIFO_CENTER) else NO_ERROR
    }

    /** The read side is as a centering left it. */
    ghost predicate ReadsStand(b: Bank, r: Record)
      reads b`read, b.read
    {
      b.read == r.phy && r.x == Final(b.read, r.start) && b.read.dqs == r.strobe
    }

    /** The search's registers are where its last read test was made; the slot is that of the test if it was the confirming one. */
    ghost predicate EnableStands(b: Bank, a: Attempt)
      reads b`enable, b`ending, b.enable
    {
      && b.enable == a.search && b.enable.trace == a.tr && b.ending == a.e
      && b.enable.AtRest(b.enable.Beyonds(a.e)) && b.enable.pointer == SlotLeft(a)
      && (a.e.Centred? ==> b.enable.phase == a.e.p && b.enable.delay == a.e.d)
    }

    /** The bank is as the attempt left it. */
    ghost predicate Stands(b: Bank, a: Attempt)
      reads b`read, b`enable, b`ending, b.read, b.enable
    {
      && EnableStands(b, a) && b.read.dqs == StrobeLeft(a)
      && if a.reading.Some? then ReadsStand(b, a.reading.value) else b.read.dq == seq(limits.bits, _ => 0)
    }

    /** Read centering of an attempt. A pin without a window is reported. */
    method CenterAttempt(b: Bank, g: nat, orig: nat) returns (ok: bool, ghost r: Record)
      requires b.Valid() && b.limits == limits && orig <= limits.inMax
      modifies this`error, b`read, b.read
      ensures b.Valid() && fresh(b.read) && ReadsStand(b, r)
      ensures ReadRecord(r, readEye(attempt), limits.bits, limits.inMax) && (ok <==> Good(r)) && r.start == orig
      ensures error == Then(old(error), PinError(r, g, VFIFO, VFIFO_CENTER))
    {
      hide ReadRecord, Good;
      b.SetStrobe(orig);
      var failing;
      ok, failing, r := b.CenterReads(readEye(attempt));
      RecordLengths(r, readEye(attempt), limits.inMax);
      if failing < limits.bits {
        SetFailingGroupStage(Times(g, limits.bits) + failing, VFIFO, VFIFO_CENTER);
      }
    }

    lemma RecordLengths(r: Record, eye: Eye, max: nat)
      requires ReadRecord(r, eye, limits.bits, max)
      ensures |r.left| == |r.right| == limits.bits
    {
    }

    /** The slot follows from the last read test. */
    lemma SlotIsLeft(b: Bank, a: Attempt)
      requires b.Valid() && b.enable == a.search && b.enable.trace == a.tr && b.enable.AtRest(b.enable.Beyonds(a.e))
      ensures b.enable.pointer == SlotLeft(a)
    {
    }

    /** One attempt: set the strobe, search, put the strobe back and center. */
    method OneAttempt(b: Bank, g: nat, t: nat, orig: nat, ghost out: nat) returns (ok: bool, substage: int, ghost a: Attempt)
      requires b.Valid() && b.limits == limits && t <= limits.inMax && orig <= limits.inMax
      modifies this`attempt, this`error, b`read, b`enable, b`ending, b.read
      ensures b.Valid() && fresh(b.enable) && (b.read == old(b.read) || fresh(b.read))
      ensures attempt == old(attempt) + 1 && TrueAttempt(a, old(attempt)) && Stands(b, a)
      ensures a.out == out && a.orig == orig && a.strobe == (if skipShadow then old(b.read.dqs) else t)
      ensures a.search.entry == old(b.enable.pointer) && b.enable.pointer == SlotLeft(a) && (skipShadow ==> b.read.dqs == old(b.read.dqs))
      ensures (ok <==> Succeeded(a)) && (!ok ==> substage == FailedSubstage(a))
      ensures error == Then(old(error), AttemptError(a, g))
    {
      hide SearchTrue, ReadRecord, Good, Staircase, AllEdges, EnableSearch.Valid, DelayGroup.Valid, Bank.Valid, PinError;
      if !skipShadow {
        b.SetStrobe(t);
      }
      ghost var strobe, spread := b.read.dqs, [];
      ok, spread := b.Search(verdicts(attempt));
      ghost var reading: Option<Record> := None;
      substage := DQS_EN_PHASE;
      if ok && !skipShadow {
        ghost var r;
        ok, r := CenterAttempt(b, g, orig);
        reading := Some(r);
        substage := VFIFO_CENTER;
      }
      a := Attempt(b.enable, b.enable.trace, b.ending, out, orig, strobe, spread, reading);
      SlotIsLeft(b, a);
      attempt := attempt + 1;
    }

    // ---- Passes over the strobe delays ----

    ghost predicate Numbered(t: seq<Attempt>, n: nat) { forall k :: 0 <= k < |t| ==> TrueAttempt(t[k], n + k) }

    /** The attempts of one pass at output delay `out`: the k-th search runs k taps beyond orig. */
    ghost predicate PassFrom(t: seq<Attempt>, out: nat, orig: int)
    {
      forall k :: 0 <= k < |t| ==> t[k].out == out && t[k].orig == orig && t[k].strobe == orig + if skipShadow then 0 else k
    }

    /** Each search begins at the VFIFO slot the one before left. */
    ghost predicate SlotsFollow(t: seq<Attempt>, slot: int)
    {
      forall k :: 0 <= k < |t| ==> t[k].search.entry == SlotAfter(t, k, slot)
    }

    /** The slot after k attempts. */
    function SlotAfter(t: seq<Attempt>, k: nat, slot: int): int
      requires k <= |t|
    {
      if k == 0 then slot else SlotLeft(t[k - 1])
    }

    ghost predicate NoneSucceeds(t: seq<Attempt>) { forall k :: 0 <= k < |t| ==> !Succeeded(t[k]) }

    /** The error the attempts leave. */
    ghost function TriedError(t: seq<Attempt>, g: nat): Error
    {
      if t == [] then NO_ERROR else Then(TriedError(t[..|t| - 1], g), AttemptError(t[|t| - 1], g))
    }

    /** What is true of a pass of which t is done. */
    ghost predicate Passing(t: seq<Attempt>, n: nat, out: nat, orig: int, slot: int)
    {
      Numbered(t, n) && PassFrom(t, out, orig) && SlotsFollow(t, slot)
    }

    /** One more attempt. */
    lemma OneMoreAttempt(t: seq<Attempt>, a: Attempt, n: nat, out: nat, orig: int, slot: int, g: nat)
      requires Passing(t, n, out, orig, slot) && TrueAttempt(a, n + |t|)
      requires a.out == out && a.orig == orig && a.strobe == orig + if skipShadow then 0 else |t|
      requires a.search.entry == if t == [] then slot else SlotLeft(t[|t| - 1])
      ensures Passing(t + [a], n, out, orig, slot) && TriedError(t + [a], g) == Then(TriedError(t, g), AttemptError(a, g))
      ensures (t + [a])[..|t|] == t && (NoneSucceeds(t) && !Succeeded(a) ==> NoneSucceeds(t + [a]))
    {
      hide Numbered, PassFrom, SlotsFollow, TrueAttempt, Succeeded, SlotLeft, AttemptError;
      assert (t + [a])[..|t|] == t;
      MoreNumbered(t, a, n);
      MorePassFrom(t, a, out, orig);
      MoreSlots(t, a, slot);
    }

    lemma MoreNumbered(t: seq<Attempt>, a: Attempt, n: nat)
      requires Numbered(t, n) && TrueAttempt(a, n + |t|)
      ensures Numbered(t + [a], n)
    {
      hide TrueAttempt;
    }

    lemma MorePassFrom(t: seq<Attempt>, a: Attempt, out: nat, orig: int)
      requires PassFrom(t, out, orig) && a.out == out && a.orig == orig && a.strobe == orig + if skipShadow then 0 else |t|
      ensures PassFrom(t + [a], out, orig)
    {
    }

    lemma MoreSlots(t: seq<Attempt>, a: Attempt, slot: int)
      requires SlotsFollow(t, slot) && a.search.entry == if t == [] then slot else SlotLeft(t[|t| - 1])
      ensures SlotsFollow(t + [a], slot)
    {
      hide SlotLeft;
      forall k | 0 <= k <= |t| ensures SlotAfter(t + [a], k, slot) == SlotAfter(t, k, slot) {
        assert 0 < k ==> (t + [a])[k - 1] == t[k - 1];
      }
    }

    lemma NoneInFront(t: seq<Attempt>)
      requires NoneSucceeds(t) && t != []
      ensures NoneSucceeds(t[..|t| - 1])
    {
    }

    /**
     One pass over the strobe input delays, from where the register stands to the end of the
     chain, until an attempt succeeds.
     */
    method TryStrobes(b: Bank, g: nat, ghost out: nat) returns (ok: bool, substage: int, ghost t: seq<Attempt>)
      requires b.Valid() && b.limits == limits
      modifies this`attempt, this`error, b`read, b`enable, b`ending, b.read
      ensures b.Valid() && fresh(b.enable) && (b.read == old(b.read) || fresh(b.read))
      ensures t != [] && attempt == old(attempt) + |t| && Passing(t, old(attempt), out, old(b.read.dqs), old(b.enable.pointer))
      ensures NoneSucceeds(t[..|t| - 1]) && (ok <==> Succeeded(t[|t| - 1])) && Stands(b, t[|t| - 1])
      ensures !ok ==> |t| == limits.inMax - old(b.read.dqs) + 1 && substage == FailedSubstage(t[|t| - 1])
      ensures error == Then(old(error), TriedError(t, g))
    {
      hide TrueAttempt, Succeeded, AttemptError, Passing, SlotLeft, StrobeLeft, Stands, NoneSucceeds, TriedError, Bank.Valid;
      StrobeInRange(b);
      var orig, tap := b.read.dqs, b.read.dqs;
      ok, substage, t := false, DQS_EN_PHASE, [];
      NothingTried(attempt, out, orig, b.enable.pointer, g);
      while tap <= limits.inMax && !ok
        invariant b.Valid() && (b.read == old(b.read) || fresh(b.read)) && orig <= tap == orig + |t| <= limits.inMax + 1
        invariant attempt == old(attempt) + |t| && (t == [] ==> !ok && b.enable == old(b.enable) && b.enable.pointer == old(b.enable.pointer))
        invariant Passing(t, old(attempt), out, orig, old(b.enable.pointer)) && (skipShadow ==> b.read.dqs == orig)
        invariant NoneSucceeds(if ok then t[..|t| - 1] else t)
        invariant t != [] ==> b.enable.pointer == SlotLeft(t[|t| - 1])
        invariant t != [] ==> fresh(b.enable) && (ok <==> Succeeded(t[|t| - 1])) && Stands(b, t[|t| - 1])
        invariant t != [] && !ok ==> substage == FailedSubstage(t[|t| - 1])
        invariant error == Then(old(error), TriedError(t, g))
      {
        ghost var a;
        ok, substage, a := OneAttempt(b, g, tap, orig, out);
        OneMoreAttempt(t, a, old(attempt), out, orig, old(b.enable.pointer), g);
        t := t + [a];
        tap := tap + 1;
      }
      if !ok { NoneInFront(t); }
    }

    lemma NothingTried(n: nat, out: nat, orig: int, slot: int, g: nat)
      ensures Passing([], n, out, orig, slot) && NoneSucceeds([]) && TriedError([], g) == NO_ERROR
    {
    }

    lemma StrobeInRange(b: Bank)
      requires b.Valid() && b.limits == limits
      ensures 0 <= b.read.dqs <= limits.inMax
    {
    }

    // ---- Read calibration ----

    /** The n-th guaranteed read lets the attempts begin. */
    predicate Reads(n: nat) { !checkGuaranteed || guaranteed(n) }

    /** One output delay: no attempt if its guaranteed read fails, else a pass that ends with a good attempt or with the chain. */
    ghost predicate OneVisit(t: seq<Attempt>, n: nat, out: nat, orig: int, slot: int, read: nat)
    {
      if !Reads(read) then t == []
      else
        && t != [] && Passing(t, n, out, orig, slot) && NoneSucceeds(t[..|t| - 1])
        && (!Succeeded(t[|t| - 1]) ==> |t| == limits.inMax - orig + 1)
    }

    function StrobeAfter(vs: Visits, start: int): int
    {
      match LastAttempt(vs)
      case None => start
      case Some(a) => StrobeLeft(a)
    }

    function SlotAfterAll(vs: Visits, slot: int): int
    {
      match LastAttempt(vs)
      case None => slot
      case Some(a) => SlotLeft(a)
    }

    ghost predicate Passed(vs: Visits) { LastAttempt(vs).Some? && Succeeded(LastAttempt(vs).value) }

    /**
     Output delays 0, 2, 4 and so on were visited in turn, each with the next guaranteed read and from the strobe delay and slot the
     attempts before left, until an attempt succeeded.
     */
    ghost predicate VisitsTrue(vs: Visits, first: nat, read: nat, start: int, slot: int)
      decreases |vs|
    {
      vs == [] ||
      (var k := |vs| - 1;
        && VisitsTrue(vs[..k], first, read, start, slot) && !Passed(vs[..k])
        && OneVisit(vs[k], first + Count(vs[..k]), 2 * k, StrobeAfter(vs[..k], start), SlotAfterAll(vs[..k], slot), read + k))
    }

    ghost function VisitsError(vs: Visits, g: nat): Error
    {
      if vs == [] then NO_ERROR else Then(VisitsError(vs[..|vs| - 1], g), TriedError(vs[|vs| - 1], g))
    }

    /** The substage a failed read calibration records: that of the last attempt, or of the guaranteed read if there was none. */
    function LastSubstage(vs: Visits): int
    {
      match LastAttempt(vs)
      case None => GUARANTEED_READ
      case Some(a) => FailedSubstage(a)
    }

    /** The read side before any attempt: data delays zero, strobe at the reserve, phase and enable delay as after reset. */
    ghost predicate AtEntry(b: Bank, slot: int)
      reads b`read, b`enable, b.read, b.enable
    {
      && b.read.dqs == limits.inReserve && b.read.dq == seq(limits.bits, _ => 0)
      && b.enable.pointer == slot && b.enable.phase == b.enable.delay == 0
    }

    /** The read side as the attempts left it. */
    ghost predicate ReadSideAs(b: Bank, vs: Visits, slot: int)
      reads b`read, b`enable, b`ending, b.read, b.enable
    {
      match LastAttempt(vs)
      case None => AtEntry(b, slot)
      case Some(a) => Stands(b, a)
    }

    /** One more output delay. */
    lemma OneMoreVisit(vs: Visits, t: seq<Attempt>, first: nat, read: nat, start: int, slot: int, g: nat)
      requires VisitsTrue(vs, first, read, start, slot) && !Passed(vs)
      requires OneVisit(t, first + Count(vs), 2 * |vs|, StrobeAfter(vs, start), SlotAfterAll(vs, slot), read + |vs|)
      ensures VisitsTrue(vs + [t], first, read, start, slot) && Count(vs + [t]) == Count(vs) + |t|
      ensures VisitsError(vs + [t], g) == Then(VisitsError(vs, g), TriedError(t, g))
      ensures LastAttempt(vs + [t]) == if t == [] then LastAttempt(vs) else Some(t[|t| - 1])
    {
      hide OneVisit, Passed, StrobeAfter, SlotAfterAll, TriedError;
      assert (vs + [t])[..|vs|] == vs;
    }

    /** One output delay of read calibration; a failing guaranteed read leaves the failed substage as it was. */
    method TryDelay(b: Bank, g: nat, d: nat, substage0: int, ghost vs: Visits, ghost slot: int)
      returns (ok: bool, substage: int, ghost t: seq<Attempt>)
      requires b.Valid() && b.limits == limits && d <= limits.outMax && ReadSideAs(b, vs, slot)
      requires b.OutputsIdle() && (d == 0 ==> b.write.dqs == b.oct == limits.outReserve)
      modifies this`attempt, this`error, this`readTests, b`read, b`enable, b`ending, b`oct, b`outPhase, b.read, b.write, b.mask
      ensures b.Valid() && b.read != b.write && b.OutputsAt(d)
      ensures (b.read == old(b.read) || fresh(b.read)) && (b.enable == old(b.enable) || fresh(b.enable))
      ensures readTests == old(readTests) + 1 && attempt == old(attempt) + |t|
      ensures OneVisit(t, old(attempt), d, StrobeAfter(vs, limits.inReserve), SlotAfterAll(vs, slot), old(readTests))
      ensures error == Then(old(error), TriedError(t, g))
      ensures if t == [] then !ok && substage == substage0 && ReadSideAs(b, vs, slot)
              else (ok <==> Succeeded(t[|t| - 1])) && (!ok ==> substage == FailedSubstage(t[|t| - 1])) && Stands(b, t[|t| - 1])
    {
      hide Passing, Succeeded, Stands, NoneSucceeds, Limits.Valid, ReadSideAs, StrobeAfter, SlotAfterAll;
      ReadSideIs(b, vs, slot);
      b.PrepareOutputs(d);
      readTests := readTests + 1;
      ok, substage, t := false, substage0, [];
      if !checkGuaranteed || guaranteed(readTests - 1) {
        ok, substage, t := TryStrobes(b, g, d);
      }
    }

    /** How many whole delay taps fit below one phase tap. */
    method DtapsPerPtap() returns (n: nat)
      requires limits.Valid()
      ensures limits.TapsPerPhase(n) && n <= limits.outMax
    {
      n := 0;
      var tmpDelay := 0;
      while tmpDelay < limits.opa
        invariant tmpDelay == Times(n, limits.dchain) && n <= limits.outMax + 1
        invariant n > 0 ==> Times(n - 1, limits.dchain) < limits.opa
        decreases limits.outMax + 1 - n
      {
        if limits.outMax < n { TimesMonotonic(limits.outMax + 1, n, limits.dchain); }
        n := n + 1;
        tmpDelay := tmpDelay + limits.dchain;
      }
      n := n - 1;
    }

    /** The output delays visited are not more than those up to a phase tap, and all of them without a good attempt. */
    ghost predicate Complete(vs: Visits)
    {
      forall n: nat :: limits.TapsPerPhase(n) ==> 1 <= |vs| <= n / 2 + 1 && (!Passed(vs) ==> |vs| == n / 2 + 1)
    }

    lemma CompleteIs(vs: Visits, n: nat)
      requires limits.Valid() && limits.TapsPerPhase(n) && 1 <= |vs| <= n / 2 + 1 && (!Passed(vs) ==> |vs| == n / 2 + 1)
      ensures Complete(vs)
    {
      hide Passed;
      forall k: nat | limits.TapsPerPhase(k) ensures k == n {
        if k < n { TimesMonotonic(k + 1, n, limits.dchain); }
        if n < k { TimesMonotonic(n + 1, k, limits.dchain); }
      }
    }

    lemma NothingVisited(b: Bank, first: nat, read: nat, start: int, slot: int, g: nat)
      requires AtEntry(b, slot)
      ensures VisitsTrue([], first, read, start, slot) && !Passed([]) && Count([]) == 0 && VisitsError([], g) == NO_ERROR
      ensures ReadSideAs(b, [], slot) && LastSubstage([]) == GUARANTEED_READ
    {
    }

    /** What the next attempt finds is what the last one left. */
    lemma ReadSideIs(b: Bank, vs: Visits, slot: int)
      requires ReadSideAs(b, vs, slot)
      ensures b.read.dqs == StrobeAfter(vs, limits.inReserve) && b.enable.pointer == SlotAfterAll(vs, slot)
    {
    }

    /** Verdict, substage and read side after one more output delay. */
    lemma VisitEnds(b: Bank, vs: Visits, t: seq<Attempt>, slot: int, ok: bool, substage: int)
      requires LastAttempt(vs + [t]) == (if t == [] then LastAttempt(vs) else Some(t[|t| - 1])) && !Passed(vs)
      requires if t == [] then !ok && substage == LastSubstage(vs) && ReadSideAs(b, vs, slot)
               else (ok <==> Succeeded(t[|t| - 1])) && (!ok ==> substage == FailedSubstage(t[|t| - 1])) && Stands(b, t[|t| - 1])
      ensures (ok <==> Passed(vs + [t])) && (!ok ==> substage == LastSubstage(vs + [t])) && ReadSideAs(b, vs + [t], slot)
    {
      hide Stands, AtEntry, LastAttempt, Succeeded;
    }

    /**
     Read calibration of a group: every other output delay tap, then every strobe input delay. It passes
     if and only if some attempt succeeds, which is then the last one; otherwise every output delay was visited.
     A pass leaves the output side as it found it, a failure with the last delay tried.
     */
    method CalibrateVfifo(b: Bank, g: nat) returns (ok: bool, ghost vs: Visits)
      requires b.Valid() && b.limits == limits && AtEntry(b, b.enable.pointer)
      requires b.OutputsIdle() && b.write.dqs == b.oct == limits.outReserve
      modifies this`attempt, this`error, this`readTests, b`read, b`enable, b`ending, b`oct, b`outPhase, b.read, b.write, b.mask
      ensures b.Valid() && (b.read == old(b.read) || fresh(b.read)) && (b.enable == old(b.enable) || fresh(b.enable))
      ensures vs != [] && VisitsTrue(vs, old(attempt), old(readTests), limits.inReserve, old(b.enable.pointer)) && Complete(vs)
      ensures attempt == old(attempt) + Count(vs) && readTests == old(readTests) + |vs|
      ensures (ok <==> Passed(vs)) && ReadSideAs(b, vs, old(b.enable.pointer)) && b.OutputsAt(if ok then 0 else 2 * (|vs| - 1))
      ensures error == Then(old(error), Then(VisitsError(vs, g), if ok then NO_ERROR else Error(VFIFO, LastSubstage(vs), g)))
    {
      hide Passed, Bank.Valid, OneVisit, VisitsTrue, VisitsError, TriedError, LastSubstage, ReadSideAs, Stands, Complete, Count, LastAttempt;
      hide Limits.TapsPerPhase, Succeeded;
      ghost var slot := b.enable.pointer;
      LimitsAreValid(b);
      var dtaps := DtapsPerPtap();
      var substage, d := GUARANTEED_READ, 0;
      ok, vs := false, [];
      NothingVisited(b, attempt, readTests, limits.inReserve, slot, g);
      while d <= dtaps && !ok
        invariant b.Valid() && d == 2 * |vs| <= dtaps + 2 && (0 < d ==> b.read != b.write)
        invariant if d == 0 then !ok && b.OutputsIdle() && b.write.dqs == b.oct == limits.outReserve else b.OutputsAt(d - 2)
        invariant (b.read == old(b.read) || fresh(b.read)) && (b.enable == old(b.enable) || fresh(b.enable))
        invariant VisitsTrue(vs, old(attempt), old(readTests), limits.inReserve, slot)
        invariant attempt == old(attempt) + Count(vs) && readTests == old(readTests) + |vs|
        invariant (ok <==> Passed(vs)) && (!ok ==> substage == LastSubstage(vs)) && ReadSideAs(b, vs, slot)
        invariant error == Then(old(error), VisitsError(vs, g))
        decreases dtaps + 2 - d
      {
        ghost var t;
        ok, substage, t := TryDelay(b, g, d, substage, vs, slot);
        OneMoreVisit(vs, t, old(attempt), old(readTests), limits.inReserve, slot, g);
        VisitEnds(b, vs, t, slot, ok, substage);
        vs := vs + [t];
        d := d + 2;
      }
      CompleteIs(vs, dtaps);
      if !ok {
        SetFailingGroupStage(g, VFIFO, substage);
        return;
      }
      if d > 2 {
        b.ZeroOutputs();
      }
    }

    lemma LimitsAreValid(b: Bank)
      requires b.Valid() && b.limits == limits
      ensures limits.Valid()
    {
    }

    // ---- The other stages ----

    /** The write side is as a centering left it. */
    ghost predicate WritesStand(b: Bank, r: Record)
      reads b`write, b`mask, b`oct, b.write, b.mask
    {
      && b.write == r.phy && r.x == Final(b.write, r.start) && b.write.dqs == b.oct == r.strobe
      && r.mask == Some(b.mask) && b.mask.dm == r.dm && b.mask.dqs == r.strobe && (Good(r) ==> b.mask.Passes())
    }

    /** The error a later stage reports: the first pin without a window, or the group. */
    ghost function StageError(r: Record, g: nat, stage: int, substage: int): Error
    {
      if Good(r) then NO_ERROR else Then(PinError(r, g, stage, substage), Error(stage, substage, g))
    }

    /** Write calibration of a group. */
    method CalibrateWrites(b: Bank, g: nat) returns (ok: bool, ghost r: Record)
      requires b.Valid() && b.limits == limits
      modifies this`error, b`write, b`mask, b`oct
      ensures b.Valid() && fresh(b.write) && fresh(b.mask) && WritesStand(b, r)
      ensures WriteRecord(r, writeEye(g), maskEye(g), limits.bits, limits.outMax) && (ok <==> Good(r)) && r.start == old(b.write.dqs)
      ensures !AllEdges(r) ==> r.dm == old(b.mask.dm)
      ensures error == Then(old(error), StageError(r, g, WRITES, WRITES_CENTER))
    {
      hide WriteRecord, Bank.Valid;
      var failing;
      ok, failing, r := b.CenterWrites(writeEye(g), maskEye(g));
      WriteLengths(r, writeEye(g), maskEye(g));
      if failing < limits.bits {
        SetFailingGroupStage(Times(g, limits.bits) + failing, WRITES, WRITES_CENTER);
      }
      if !ok {
        SetFailingGroupStage(g, WRITES, WRITES_CENTER);
      }
    }

    lemma WriteLengths(r: Record, eye: Eye, maskEye: int -> bool)
      requires WriteRecord(r, eye, maskEye, limits.bits, limits.outMax)
      ensures |r.left| == |r.right| == limits.bits
    {
    }

    /** Read centering repeated after the writes were centered. */
    method CalibrateVfifoEnd(b: Bank, g: nat) returns (ok: bool, ghost r: Record)
      requires b.Valid() && b.limits == limits
      modifies this`error, b`read
      ensures b.Valid() && fresh(b.read) && ReadsStand(b, r)
      ensures ReadRecord(r, endEye(g), limits.bits, limits.inMax) && (ok <==> Good(r)) && r.start == old(b.read.dqs)
      ensures error == Then(old(error), StageError(r, g, VFIFO_AFTER_WRITES, VFIFO_CENTER))
    {
      hide ReadRecord, Bank.Valid;
      var failing;
      ok, failing, r := b.CenterReads(endEye(g));
      RecordLengths(r, endEye(g), limits.inMax);
      if failing < limits.bits {
        SetFailingGroupStage(Times(g, limits.bits) + failing, VFIFO_AFTER_WRITES, VFIFO_CENTER);
      }
      if !ok {
        SetFailingGroupStage(g, VFIFO_AFTER_WRITES, VFIFO_CENTER);
      }
    }

    /** The error of the stages after read calibration. */
    ghost function SideError(wrote: Option<Record>, ended: Option<Record>, g: nat): Error
    {
      Then(if wrote.Some? then StageError(wrote.value, g, WRITES, WRITES_CENTER) else NO_ERROR,
           if ended.Some? then StageError(ended.value, g, VFIFO_AFTER_WRITES, VFIFO_CENTER) else NO_ERROR)
    }

    /** The stages after read calibration of a group. */
    method OutputSide(b: Bank, g: nat) returns (ok: bool, ghost wrote: Option<Record>, ghost ended: Option<Record>)
      requires b.Valid() && b.limits == limits
      modifies this`error, b`read, b`write, b`mask, b`oct
      ensures b.Valid() && (b.write == old(b.write) || fresh(b.write)) && (b.mask == old(b.mask) || fresh(b.mask))
      ensures (wrote.Some? <==> !skipShadow) && (ended.Some? <==> wrote.Some? && Good(wrote.value))
      ensures wrote.Some? ==>
        && WriteRecord(wrote.value, writeEye(g), maskEye(g), limits.bits, limits.outMax) && WritesStand(b, wrote.value)
        && wrote.value.start == old(b.write.dqs) && (!AllEdges(wrote.value) ==> wrote.value.dm == old(b.mask.dm))
      ensures wrote.None? ==> b.write == old(b.write) && b.mask == old(b.mask) && b.oct == old(b.oct)
      ensures if ended.Some? then
                && ReadRecord(ended.value, endEye(g), limits.bits, limits.inMax) && ReadsStand(b, ended.value)
                && ended.value.start == old(b.read.dqs) && fresh(b.read)
              else b.read == old(b.read)
      ensures ok <==> skipShadow || (ended.Some? && Good(ended.value))
      ensures error == Then(old(error), SideError(wrote, ended, g))
    {
      hide ReadRecord, WriteRecord, Good, AllEdges, Bank.Valid;
      ok, wrote, ended := true, None, None;
      if skipShadow {
        return;
      }
      ghost var w;
      ok, w := CalibrateWrites(b, g);
      wrote := Some(w);
      if ok {
        ghost var r;
        ok, r := CalibrateVfifoEnd(b, g);
        ended := Some(r);
      }
    }

    // ---- A group ----

    /** The group went through every stage it has to. */
    ghost predicate RunPassed(r: GroupRun)
    {
      Passed(r.visits) && (skipShadow || (r.ended.Some? && Good(r.ended.value)))
    }

    /**
     What a run stands for: read calibration visited its output delays in turn; a later stage is reached exactly if the stages before
     it passed; and each record is of a centering that faced the group's own eyes and started from the strobe delay left to it.
     */
    ghost predicate RunTrue(r: GroupRun, g: nat)
    {
      && r.visits != [] && VisitsTrue(r.visits, r.first, r.read, limits.inReserve, r.slot) && Complete(r.visits)
      && (r.wrote.Some? <==> !skipShadow && Passed(r.visits)) && (r.ended.Some? <==> r.wrote.Some? && Good(r.wrote.value))
      && (r.wrote.Some? ==>
           && WriteRecord(r.wrote.value, writeEye(g), maskEye(g), limits.bits, limits.outMax)
           && r.wrote.value.start == limits.outReserve && (!AllEdges(r.wrote.value) ==> r.wrote.value.dm == 0))
      && (r.ended.Some? ==>
           && ReadRecord(r.ended.value, endEye(g), limits.bits, limits.inMax)
           && r.ended.value.start == StrobeAfter(r.visits, limits.inReserve))
    }

    /** The error a run leaves. */
    ghost function RunError(r: GroupRun, g: nat): Error
    {
      Then(Then(VisitsError(r.visits, g), if Passed(r.visits) then NO_ERROR else Error(VFIFO, LastSubstage(r.visits), g)),
           SideError(r.wrote, r.ended, g))
    }

    /** The read side is as the last stage to touch it left it. */
    ghost predicate ReadsAs(b: Bank, r: GroupRun)
      reads b`read, b`enable, b`ending, b.read, b.enable
    {
      if r.ended.Some? then
        ReadsStand(b, r.ended.value) && LastAttempt(r.visits).Some? && EnableStands(b, LastAttempt(r.visits).value)
      else ReadSideAs(b, r.visits, r.slot)
    }

    /** So is the write side. */
    ghost predicate WritesAs(b: Bank, r: GroupRun)
      reads b`write, b`mask, b`oct, b`outPhase, b.write, b.mask
    {
      if r.wrote.Some? then WritesStand(b, r.wrote.value) && b.outPhase == 0
      else r.visits != [] && b.OutputsAt(if Passed(r.visits) then 0 else 2 * (|r.visits| - 1))
    }

    /** What is known of a group that was calibrated, and of its registers. */
    ghost predicate Recorded(b: Bank, r: GroupRun, h: nat)
      reads b, b.read, b.write, b.mask, b.enable
    {
      RunTrue(r, h) && ReadsAs(b, r) && WritesAs(b, r)
    }

    /** The read side's registers as they are after the reset of all groups. */
    ghost predicate IsReset(b: Bank)
      reads b, b.read, b.write, b.mask, b.enable
    {
      b.Values().dqsIn == limits.inReserve && b.Values().phase == b.Values().delay == 0
    }

    /** What the stages ran is a true run, and its verdict and error are theirs. */
    lemma RunEnds(b: Bank, r: GroupRun, g: nat, ok: bool)
      requires r.visits != [] && VisitsTrue(r.visits, r.first, r.read, limits.inReserve, r.slot) && Complete(r.visits)
      requires Passed(r.visits) ==>
        && (r.wrote.Some? <==> !skipShadow) && (r.ended.Some? <==> r.wrote.Some? && Good(r.wrote.value))
        && (ok <==> skipShadow || (r.ended.Some? && Good(r.ended.value)))
      requires !Passed(r.visits) ==> r.wrote.None? && r.ended.None? && !ok
      requires r.wrote.Some? ==>
        && WriteRecord(r.wrote.value, writeEye(g), maskEye(g), limits.bits, limits.outMax)
        && r.wrote.value.start == limits.outReserve && (!AllEdges(r.wrote.value) ==> r.wrote.value.dm == 0)
      requires r.ended.Some? ==>
        ReadRecord(r.ended.value, endEye(g), limits.bits, limits.inMax) && r.ended.value.start == StrobeAfter(r.visits, limits.inReserve)
      requires ReadsAs(b, r) && WritesAs(b, r)
      ensures Recorded(b, r, g) && (ok <==> RunPassed(r))
    {
      hide VisitsTrue, Complete, WriteRecord, ReadRecord, Good, AllEdges, ReadsAs, WritesAs, StrobeAfter;
    }

    /** After a good attempt its setting is in force, and the strobe is where its centering left it. */
    lemma GoodAttemptStands(b: Bank, vs: Visits, slot: int)
      requires ReadSideAs(b, vs, slot) && Passed(vs)
      ensures LastAttempt(vs).Some? && EnableStands(b, LastAttempt(vs).value)
    {
      hide LastAttempt, EnableStands;
    }

    /** Read calibration of a group from cleared data and output delays. */
    method ReadSide(b: Bank, g: nat) returns (ok: bool, ghost vs: Visits)
      requires b.Valid() && b.limits == limits && IsReset(b)
      modifies this`attempt, this`error, this`readTests, b, b.read, b.write, b.mask
      ensures b.Valid() && b.write == old(b.write) && b.mask == old(b.mask)
      ensures (b.read == old(b.read) || fresh(b.read)) && (b.enable == old(b.enable) || fresh(b.enable))
      ensures vs != [] && VisitsTrue(vs, old(attempt), old(readTests), limits.inReserve, old(b.enable.pointer)) && Complete(vs)
      ensures attempt == old(attempt) + Count(vs) && readTests == old(readTests) + |vs|
      ensures (ok <==> Passed(vs)) && ReadSideAs(b, vs, old(b.enable.pointer)) && b.OutputsAt(if ok then 0 else 2 * (|vs| - 1))
      ensures error == Then(old(error), Then(VisitsError(vs, g), if ok then NO_ERROR else Error(VFIFO, LastSubstage(vs), g)))
    {
      hide VisitsTrue, Complete, Count, Passed, ReadSideAs, VisitsError, LastSubstage;
      b.ZeroGroup();
      ok, vs := CalibrateVfifo(b, g);
    }

    /**
     All stages of one group. `failed` is the group's verdict, `abort` tells the driver to give
     up at once. Only this group's registers and the error record are touched.
     */
    method CalibrateGroup(b: Bank, g: nat) returns (failed: bool, abort: bool, ghost r: GroupRun)
      requires b.Valid() && b.limits == limits && IsReset(b)
      modifies this`attempt, this`error, this`readTests, b, b.read, b.write, b.mask, b.enable
      ensures b.Valid() && b.Renewed()
      ensures r.first == old(attempt) && r.read == old(readTests) && r.slot == old(b.Values().slot)
      ensures attempt == old(attempt) + Count(r.visits) && readTests == old(readTests) + |r.visits|
      ensures Recorded(b, r, g) && (failed <==> !RunPassed(r)) && (abort <==> failed && !sweepAll)
      ensures error == Then(old(error), RunError(r, g))
    {
      hide VisitsTrue, Complete, Count, Passed, ReadSideAs, VisitsError, LastSubstage, SideError, WritesStand, ReadsStand, EnableStands, LastAttempt;
      hide ReadRecord, WriteRecord, Good, AllEdges, Recorded, RunPassed, Bank.Valid;
      ghost var vs, wrote, ended := [], None, None;
      ghost var slot := b.enable.pointer;
      var ok;
      ok, vs := ReadSide(b, g);
      ReadSideIs(b, vs, slot);
      if ok {
        GoodAttemptStands(b, vs, slot);
        ok, wrote, ended := OutputSide(b, g);
      }
      r := GroupRun(old(attempt), old(readTests), slot, vs, wrote, ended);
      RunEnds(b, r, g, ok);
      failed, abort := !ok, !ok && !sweepAll;
    }

    /** Every group calibrated so far is recorded. */
    ghost predicate AllRecorded(banks: seq<Bank>, runs: Runs)
      reads banks, Owned(banks)
    {
      forall h :: h in runs ==> h < |banks| && (assert banks[h].Objects() <= Owned(banks); Recorded(banks[h], runs[h], h))
    }

    /** One group among its neighbours: they stay valid and apart. */
    method NextGroup(banks: seq<Bank>, g: nat) returns (failed: bool, abort: bool, ghost r: GroupRun)
      requires AllValid(banks, limits) && Apart(banks) && g < |banks| && IsReset(banks[g])
      modifies this`attempt, this`error, this`readTests
      modifies banks[g], banks[g].read, banks[g].write, banks[g].mask, banks[g].enable
      ensures AllValid(banks, limits) && Apart(banks) && banks[g].Renewed()
      ensures forall h :: 0 <= h < |banks| && h != g ==> banks[h].Kept()
      ensures r.first == old(attempt) && r.read == old(readTests) && r.slot == old(banks[g].Values().slot)
      ensures attempt == old(attempt) + Count(r.visits) && readTests == old(readTests) + |r.visits|
      ensures Recorded(banks[g], r, g) && (failed <==> !RunPassed(r)) && (abort <==> failed && !sweepAll)
      ensures error == Then(old(error), RunError(r, g))
    {
      hide RunPassed, RunError, Bank.Valid, Recorded, Count, IsReset;
      failed, abort, r := CalibrateGroup(banks[g], g);
      forall h | 0 <= h < |banks| && h != g
        ensures banks[h].Valid() && banks[g].ApartFrom(banks[h]) && banks[h].ApartFrom(banks[g]) && banks[h].Kept()
      {
        assert old(banks[g].ApartFrom(banks[h]));
      }
    }

    /** The same, with the records of the groups before it: their registers are as they were. */
    method OneGroup(banks: seq<Bank>, g: nat, ghost runs: Runs) returns (failed: bool, abort: bool, ghost r: GroupRun)
      requires AllValid(banks, limits) && Apart(banks) && AllRecorded(banks, runs)
      requires g < |banks| && g !in runs && IsReset(banks[g])
      modifies this`attempt, this`error, this`readTests
      modifies banks[g], banks[g].read, banks[g].write, banks[g].mask, banks[g].enable
      ensures AllValid(banks, limits) && Apart(banks) && banks[g].Renewed()
      ensures forall h :: 0 <= h < |banks| && h != g ==> banks[h].Kept()
      ensures r.first == old(attempt) && r.read == old(readTests) && r.slot == old(banks[g].Values().slot)
      ensures attempt == old(attempt) + Count(r.visits) && readTests == old(readTests) + |r.visits|
      ensures AllRecorded(banks, runs[g := r]) && (failed <==> !RunPassed(r)) && (abort <==> failed && !sweepAll)
      ensures error == Then(old(error), RunError(r, g))
    {
      hide RunPassed, RunError, Bank.Valid, AllValid, Bank.Renewed, Bank.Kept, Recorded, Count, IsReset;
      failed, abort, r := NextGroup(banks, g);
      forall h | h in runs ensures Recorded(banks[h], runs[h], h) {
        assert old(banks[g].ApartFrom(banks[h]) && Recorded(banks[h], runs[h], h));
      }
    }

    // ---- All groups ----

    /** Every group below n that is not masked out went through all its stages. */
    ghost predicate AllPassed(n: nat, runs: Runs)
    {
      forall h: nat :: h < n && !skipGroups(h) ==> h in runs && RunPassed(runs[h])
    }

    /** Some group was calibrated and did not pass. */
    ghost predicate SomeFailed(runs: Runs)
    {
      exists h :: h in runs && !RunPassed(runs[h])
    }

    /** Group h is calibrated: it is not masked out, and no group before it made the driver give up. */
    ghost predicate Reached(h: nat, runs: Runs) { !skipGroups(h) && (sweepAll || AllPassed(h, runs)) }

    /** The error of the groups below n, the first one that leaves any. */
    ghost function GroupsError(n: nat, runs: Runs): Error
    {
      if n == 0 then NO_ERROR else Then(GroupsError(n - 1, runs), if n - 1 in runs then RunError(runs[n - 1], n - 1) else NO_ERROR)
    }

    /**
     What is known after g groups: which of them were calibrated, with which of the attempts and guaranteed reads, counted from
     first and read on, and how many those are by now; how many groups failed, and what the error record says.
     */
    ghost predicate Tallied(g: nat, runs: Runs, first: nat, read: nat, attemptNow: nat, readNow: nat, e: Error, failing: nat)
    {
      && Members(g, runs) && InTurn(g, runs, first, read, attemptNow, readNow)
      && (failing == 0 <==> AllPassed(g, runs)) && (failing > 0 <==> SomeFailed(runs))
      && e == GroupsError(g, runs)
    }

    ghost predicate Members(g: nat, runs: Runs) { forall h: nat :: h in runs <==> h < g && Reached(h, runs) }

    ghost predicate InTurn(g: nat, runs: Runs, first: nat, read: nat, attemptNow: nat, readNow: nat)
    {
      && attemptNow == first + AttemptsBelow(g, runs) && readNow == read + ReadsBelow(g, runs)
      && forall h: nat :: h in runs ==> runs[h].first == first + AttemptsBelow(h, runs) && runs[h].read == read + ReadsBelow(h, runs)
    }

    lemma NoGroups(banks: seq<Bank>, first: nat, read: nat)
      ensures AllRecorded(banks, map[]) && Tallied(0, map[], first, read, first, read, NO_ERROR, 0)
    {
    }

    /** What is said of the groups below h does not depend on later ones. */
    lemma {:induction false} BelowKept(h: nat, runs: Runs, g: nat, r: GroupRun)
      requires h <= g
      ensures AttemptsBelow(h, runs[g := r]) == AttemptsBelow(h, runs) && ReadsBelow(h, runs[g := r]) == ReadsBelow(h, runs)
      ensures GroupsError(h, runs[g := r]) == GroupsError(h, runs) && (AllPassed(h, runs[g := r]) <==> AllPassed(h, runs))
    {
      hide Count, RunError, RunPassed;
      if h > 0 { BelowKept(h - 1, runs, g, r); }
    }

    /** A group that is not reached changes nothing. */
    lemma Untouched(g: nat, runs: Runs, first: nat, read: nat, attemptNow: nat, readNow: nat, e: Error, failing: nat)
      requires Tallied(g, runs, first, read, attemptNow, readNow, e, failing) && !Reached(g, runs)
      requires AllPassed(g + 1, runs) <==> AllPassed(g, runs)
      ensures Tallied(g + 1, runs, first, read, attemptNow, readNow, e, failing)
    {
      hide RunPassed, RunError, Count, SomeFailed, AllPassed, Reached;
      assert g !in runs;
      assert GroupsError(g + 1, runs) == GroupsError(g, runs);
    }

    lemma SkippedGroup(g: nat, runs: Runs, first: nat, read: nat, attemptNow: nat, readNow: nat, e: Error, failing: nat)
      requires skipGroups(g) && Tallied(g, runs, first, read, attemptNow, readNow, e, failing)
      ensures Tallied(g + 1, runs, first, read, attemptNow, readNow, e, failing)
    {
      hide RunPassed, Tallied;
      assert AllPassed(g + 1, runs) <==> AllPassed(g, runs);
      Untouched(g, runs, first, read, attemptNow, readNow, e, failing);
    }

    lemma MembersStep(g: nat, runs: Runs, r: GroupRun)
      requires Members(g, runs) && Reached(g, runs)
      ensures Members(g + 1, runs[g := r])
    {
      hide RunPassed, AllPassed;
      var runs' := runs[g := r];
      forall h: nat ensures h in runs' <==> h < g + 1 && Reached(h, runs') {
        if h <= g { BelowKept(h, runs, g, r); }
      }
    }

    lemma InTurnStep(g: nat, runs: Runs, r: GroupRun, first: nat, read: nat, attemptNow: nat, readNow: nat)
      requires (forall h: nat :: h in runs ==> h < g) && InTurn(g, runs, first, read, attemptNow, readNow)
      requires r.first == attemptNow && r.read == readNow
      ensures InTurn(g + 1, runs[g := r], first, read, attemptNow + Count(r.visits), readNow + |r.visits|)
    {
      hide Count;
      var runs' := runs[g := r];
      BelowKept(g, runs, g, r);
      forall h: nat | h in runs'
        ensures runs'[h].first == first + AttemptsBelow(h, runs') && runs'[h].read == read + ReadsBelow(h, runs')
      {
        if h < g { BelowKept(h, runs, g, r); }
      }
    }

    lemma AllPassedStep(g: nat, runs: Runs, r: GroupRun)
      requires !skipGroups(g)
      ensures AllPassed(g + 1, runs[g := r]) <==> AllPassed(g, runs) && RunPassed(r)
    {
      hide RunPassed;
      assert AllPassed(g + 1, runs[g := r]) ==> AllPassed(g, runs) by {
        if AllPassed(g + 1, runs[g := r]) {
          forall h: nat | h < g && !skipGroups(h) ensures h in runs && RunPassed(runs[h]) { assert h in runs[g := r]; }
        }
      }
    }

    /** One more group, which passed or failed. */
    lemma TallyGroup(g: nat, runs: Runs, r: GroupRun, first: nat, read: nat, attemptNow: nat, readNow: nat, e: Error, failing: nat, failed: bool)
      requires !skipGroups(g) && (sweepAll || failing == 0) && Tallied(g, runs, first, read, attemptNow, readNow, e, failing)
      requires r.first == attemptNow && r.read == readNow && (failed <==> !RunPassed(r))
      ensures Tallied(g + 1, runs[g := r], first, read, attemptNow + Count(r.visits), readNow + |r.visits|, Then(e, RunError(r, g)),
                      if failed then failing + 1 else failing)
    {
      NotYet(g, runs, first, read, attemptNow, readNow, e, failing);
      hide RunPassed, RunError, Count, AllPassed, SomeFailed, Members, InTurn;
      MembersStep(g, runs, r);
      InTurnStep(g, runs, r, first, read, attemptNow, readNow);
      AllPassedStep(g, runs, r);
      SomeFailedStep(g, runs, r);
      BelowKept(g, runs, g, r);
    }

    lemma SomeFailedStep(g: nat, runs: Runs, r: GroupRun)
      requires g !in runs
      ensures SomeFailed(runs[g := r]) <==> SomeFailed(runs) || !RunPassed(r)
    {
      hide RunPassed;
      var runs' := runs[g := r];
      if SomeFailed(runs) {
        var h :| h in runs && !RunPassed(runs[h]);
        assert h in runs' && runs'[h] == runs[h];
      }
      if !RunPassed(r) {
        assert g in runs' && runs'[g] == r;
      }
    }

    /** Once the driver gave up no group is reached any more. */
    lemma {:induction false} GaveUp(g: nat, n: nat, runs: Runs, first: nat, read: nat, attemptNow: nat, readNow: nat, e: Error, failing: nat)
      requires g <= n && 0 < failing && !sweepAll && Tallied(g, runs, first, read, attemptNow, readNow, e, failing)
      ensures Tallied(n, runs, first, read, attemptNow, readNow, e, failing)
      decreases n - g
    {
      hide RunPassed, Tallied;
      if g < n {
        Failing(g, runs, first, read, attemptNow, readNow, e, failing);
        assert AllPassed(g + 1, runs) ==> AllPassed(g, runs);
        Untouched(g, runs, first, read, attemptNow, readNow, e, failing);
        GaveUp(g + 1, n, runs, first, read, attemptNow, readNow, e, failing);
      }
    }

    lemma Failing(g: nat, runs: Runs, first: nat, read: nat, attemptNow: nat, readNow: nat, e: Error, failing: nat)
      requires 0 < failing && Tallied(g, runs, first, read, attemptNow, readNow, e, failing)
      ensures !AllPassed(g, runs)
    {
    }

    /** Group g's turn: nothing if it is masked out. */
    method TakeGroup(banks: seq<Bank>, g: nat, failing0: nat, ghost runs0: Runs, ghost first: nat, ghost read: nat)
      returns (failing: nat, abort: bool, ghost runs: Runs)
      requires AllValid(banks, limits) && Apart(banks) && AllRecorded(banks, runs0) && g < |banks| && IsReset(banks[g])
      requires Tallied(g, runs0, first, read, attempt, readTests, error, failing0) && (sweepAll || failing0 == 0)
      modifies this`attempt, this`error, this`readTests
      modifies banks[g], banks[g].read, banks[g].write, banks[g].mask, banks[g].enable
      ensures AllValid(banks, limits) && Apart(banks) && AllRecorded(banks, runs)
      ensures if skipGroups(g) then runs == runs0 else g in runs && runs == runs0[g := runs[g]]
      ensures !skipGroups(g) ==> runs[g].slot == old(banks[g].Values().slot)
      ensures forall h :: 0 <= h < |banks| && (h != g || skipGroups(g)) ==> banks[h].Kept()
      ensures Tallied(g + 1, runs, first, read, attempt, readTests, error, failing) && (abort <==> !sweepAll && 0 < failing)
    {
      hide RunPassed, RunError, Count, Tallied, Recorded, IsReset;
      hide Apart, AllValid, AllRecorded, Bank.Valid, Bank.Renewed;
      failing, abort, runs := failing0, false, runs0;
      NotYet(g, runs, first, read, attempt, readTests, error, failing);
      if skipGroups(g) {
        SkippedGroup(g, runs, first, read, attempt, readTests, error, failing);
        return;
      }
      var failed;
      ghost var r;
      failed, abort, r := OneGroup(banks, g, runs);
      TallyGroup(g, runs, r, first, read, old(attempt), old(readTests), old(error), failing, failed);
      runs := runs[g := r];
      if failed {
        failing := failing + 1;
      }
    }

    lemma NotYet(g: nat, runs: Runs, first: nat, read: nat, attemptNow: nat, readNow: nat, e: Error, failing: nat)
      requires Tallied(g, runs, first, read, attemptNow, readNow, e, failing)
      ensures forall h: nat :: h in runs ==> h < g
    {
    }

    /** All groups in turn. Groups that were not reached, or are masked out, keep their registers. */
    method CalibrateGroups(banks: seq<Bank>, ghost own: set<object>) returns (failing: nat, abort: bool, ghost runs: Runs)
      requires AllValid(banks, limits) && Apart(banks) && error == NO_ERROR
      requires forall h :: 0 <= h < |banks| ==> IsReset(banks[h]) && banks[h].Objects() <= own
      modifies this`attempt, this`error, this`readTests, own
      ensures AllValid(banks, limits) && Apart(banks) && AllRecorded(banks, runs)
      ensures forall h :: h in runs ==> h < |banks| && runs[h].slot == old(banks[h].Values().slot)
      ensures forall h :: 0 <= h < |banks| && h !in runs ==> banks[h].Kept()
      ensures Tallied(|banks|, runs, old(attempt), old(readTests), attempt, readTests, error, failing)
    {
      hide Tallied, Recorded, Apart, AllValid, AllRecorded, Bank.Valid, Bank.Values;
      failing, abort, runs := 0, false, map[];
      NoGroups(banks, attempt, readTests);
      for g := 0 to |banks|
        invariant AllValid(banks, limits) && Apart(banks) && AllRecorded(banks, runs)
        invariant forall h :: h in runs ==> h < g && runs[h].slot == old(banks[h].Values().slot)
        invariant forall h :: 0 <= h < |banks| && (h >= g || h !in runs) ==> banks[h].Kept()
        invariant Tallied(g, runs, old(attempt), old(readTests), attempt, readTests, error, failing) && (sweepAll || failing == 0)
      {
        assert old(banks[g].Objects()) <= own;
        assert banks[g].Kept() && old(IsReset(banks[g]));
        assert IsReset(banks[g]) && banks[g].Values() == old(banks[g].Values());
        failing, abort, runs := TakeGroup(banks, g, failing, runs, old(attempt), old(readTests));
        if abort {
          GaveUp(g + 1, |banks|, runs, old(attempt), old(readTests), attempt, readTests, error, failing);
          return;
        }
      }
    }

    /** Reset of one group among its neighbours. */
    method ResetGroup(banks: seq<Bank>, g: nat)
      requires AllValid(banks, limits) && Apart(banks) && g < |banks|
      modifies banks[g], banks[g].read, banks[g].enable
      ensures AllValid(banks, limits) && Apart(banks) && banks[g].WasReset() && IsReset(banks[g])
      ensures forall h :: 0 <= h < |banks| && h != g ==> banks[h].Kept()
    {
      hide Bank.Valid;
      banks[g].Reset();
      forall h | 0 <= h < |banks| && h != g ensures banks[h].Valid() && banks[h].Kept() {
        assert old(banks[g].ApartFrom(banks[h]));
      }
    }

    /** Reset of all groups, masked out or not. */
    method ZeroAll(banks: seq<Bank>, ghost own: set<object>)
      requires AllValid(banks, limits) && Apart(banks) && forall h :: 0 <= h < |banks| ==> banks[h].Objects() <= own
      modifies own
      ensures AllValid(banks, limits) && Apart(banks) && unchanged(this)
      ensures forall h :: 0 <= h < |banks| ==> banks[h].WasReset() && IsReset(banks[h])
    {
      hide AllValid, Apart, Bank.Valid, Bank.Values;
      for g := 0 to |banks|
        invariant AllValid(banks, limits) && Apart(banks) && unchanged(this)
        invariant forall h :: 0 <= h < g ==> banks[h].WasReset() && IsReset(banks[h])
        invariant forall h :: g <= h < |banks| ==> banks[h].Kept()
      {
        assert old(banks[g].Objects()) <= own;
        ResetGroup(banks, g);
      }
    }

    /** Before the first group: no error, and all groups reset. */
    method BeginAll(banks: seq<Bank>, ghost own: set<object>)
      requires AllValid(banks, limits) && Apart(banks) && forall h :: 0 <= h < |banks| ==> banks[h].Objects() <= own
      modifies this`error, own
      ensures AllValid(banks, limits) && Apart(banks) && error == NO_ERROR && attempt == old(attempt) && readTests == old(readTests)
      ensures forall h :: 0 <= h < |banks| ==> banks[h].WasReset() && IsReset(banks[h])
    {
      hide AllValid, Apart, Bank.Valid, Bank.Values, IsReset;
      ClearError(banks);
      ZeroAll(banks, own);
    }

    /** The error of the latency search. */
    function LatencyError(ok: bool): Error { if ok then NO_ERROR else Error(LFIFO, READ_LATENCY, 0xff) }

    method CalibrateLatency() returns (ok: bool)
      modifies this`error
      ensures (ok <==> latency) && error == Then(old(error), LatencyError(ok))
    {
      ok := latency;
      if !ok {
        SetFailingGroupStage(0xff, LFIFO, READ_LATENCY);
      }
    }

    /** The error record cleared before anything else. */
    method ClearError(banks: seq<Bank>)
      requires AllValid(banks, limits) && Apart(banks)
      modifies this`error
      ensures AllValid(banks, limits) && Apart(banks) && error == NO_ERROR
      ensures forall h :: 0 <= h < |banks| ==> banks[h].Kept()
    {
      hide Bank.Valid;
      error := NO_ERROR;
    }

    /** The latency search, unless the mask is set. It does not touch the groups. */
    method FinishLatency(banks: seq<Bank>, ghost runs: Runs) returns (ok: bool)
      requires AllValid(banks, limits) && Apart(banks) && AllRecorded(banks, runs)
      modifies this`error
      ensures AllValid(banks, limits) && Apart(banks) && AllRecorded(banks, runs)
      ensures (ok <==> maskSet || latency) && error == Then(old(error), LatencyError(ok))
    {
      hide Bank.Valid, Recorded;
      ok := true;
      if !maskSet {
        ok := CalibrateLatency();
      }
    }

    /** Reset, all groups, latency: what the entry point does unless everything is skipped. */
    method CalibrateAll(banks: seq<Bank>, ghost own: set<object>) returns (ok: bool, ghost runs: Runs)
      requires AllValid(banks, limits) && Apart(banks) && forall h :: 0 <= h < |banks| ==> banks[h].Objects() <= own
      modifies this`attempt, this`error, this`readTests, own
      ensures AllValid(banks, limits) && Apart(banks) && AllRecorded(banks, runs)
      ensures Members(|banks|, runs) && InTurn(|banks|, runs, old(attempt), old(readTests), attempt, readTests)
      ensures forall h :: h in runs ==> h < |banks| && runs[h].slot == old(banks[h].Values().slot)
      ensures forall h :: 0 <= h < |banks| && h !in runs ==> banks[h].WasReset()
      ensures AllPassed(|banks|, runs) <==> !SomeFailed(runs)
      ensures ok <==> AllPassed(|banks|, runs) && (maskSet || latency)
      ensures error == Then(GroupsError(|banks|, runs), LatencyError(ok || !AllPassed(|banks|, runs)))
    {
      hide Recorded, Apart, AllValid, AllRecorded, Bank.Valid, Bank.Values, AllPassed, SomeFailed, Members, InTurn, GroupsError, IsReset;
      BeginAll(banks, own);
      var failing, abort;
      failing, abort, runs := CalibrateGroups(banks, own);
      ok := failing == 0;
      if ok {
        ok := FinishLatency(banks, runs);
      }
    }

    /**
     The entry point: calibrates every group that is not masked out, then the read latency. It returns true exactly
     if every such group passed all its stages and the latency search passed, when that has to run. The error record
     is the first error of the groups in turn, or of the latency search; after a true return that is none exactly if no attempt
     met a pin without a window.
     */
    method MemCalibrate(banks: seq<Bank>, skipAll: bool) returns (ok: bool, ghost runs: Runs)
      requires AllValid(banks, limits) && Apart(banks)
      modifies this`attempt, this`error, this`readTests, Owned(banks)
      ensures AllValid(banks, limits) && Apart(banks) && AllRecorded(banks, runs)
      ensures !skipAll ==> Members(|banks|, runs) && InTurn(|banks|, runs, old(attempt), old(readTests), attempt, readTests)
      ensures forall h :: h in runs ==> h < |banks| && runs[h].slot == old(banks[h].Values().slot)
      ensures ok <==> skipAll || (AllPassed(|banks|, runs) && (maskSet || latency))
      ensures !skipAll ==> (AllPassed(|banks|, runs) <==> !SomeFailed(runs))
      ensures !skipAll ==> error == Then(GroupsError(|banks|, runs), LatencyError(ok || !AllPassed(|banks|, runs)))
      ensures !ok ==> Names(error, |banks|) || error == Error(LFIFO, READ_LATENCY, 0xff)
      ensures !skipAll && ok ==> CleanError(runs, error, |banks|)
      ensures !skipAll ==> forall h :: 0 <= h < |banks| && h !in runs ==> banks[h].WasReset()
      ensures skipAll ==> error == NO_ERROR && runs == map[] && attempt == old(attempt) && readTests == old(readTests)
      ensures skipAll ==> forall h :: 0 <= h < |banks| ==> banks[h].Kept()
    {
      if skipAll {
        ok, runs := SkipCalibration(banks);
      } else {
        ok, runs := CalibrateBanks(banks);
      }
    }

    /** With everything skipped only the error record is cleared. */
    method SkipCalibration(banks: seq<Bank>) returns (ok: bool, ghost runs: Runs)
      requires AllValid(banks, limits) && Apart(banks)
      modifies this`error
      ensures AllValid(banks, limits) && Apart(banks) && AllRecorded(banks, runs)
      ensures ok && error == NO_ERROR && runs == map[] && forall h :: 0 <= h < |banks| ==> banks[h].Kept()
    {
      hide AllValid, Apart;
      ClearError(banks);
      NoGroups(banks, attempt, readTests);
      ok, runs := true, map[];
    }

    /** The whole calibration, with what its error record says. */
    method CalibrateBanks(banks: seq<Bank>) returns (ok: bool, ghost runs: Runs)
      requires AllValid(banks, limits) && Apart(banks)
      modifies this`attempt, this`error, this`readTests, Owned(banks)
      ensures AllValid(banks, limits) && Apart(banks) && AllRecorded(banks, runs)
      ensures Members(|banks|, runs) && InTurn(|banks|, runs, old(attempt), old(readTests), attempt, readTests)
      ensures forall h :: h in runs ==> h < |banks| && runs[h].slot == old(banks[h].Values().slot)
      ensures forall h :: 0 <= h < |banks| && h !in runs ==> banks[h].WasReset()
      ensures AllPassed(|banks|, runs) <==> !SomeFailed(runs)
      ensures ok <==> AllPassed(|banks|, runs) && (maskSet || latency)
      ensures error == Then(GroupsError(|banks|, runs), LatencyError(ok || !AllPassed(|banks|, runs)))
      ensures !ok ==> Names(error, |banks|) || error == Error(LFIFO, READ_LATENCY, 0xff)
      ensures ok ==> CleanError(runs, error, |banks|)
    {
      hide Apart, AllValid, AllRecorded, Bank.Valid, Bank.Values, AllPassed, SomeFailed, Members, InTurn, GroupsError, CleanError, Names;
      ghost var own := Owned(banks);
      assert forall h :: 0 <= h < |banks| ==> banks[h].Objects() <= own;
      ok, runs := CalibrateAll(banks, own);
      ErrorMeans(banks, runs);
    }

    // ---- What an error record says ----

    /** The error names a pin of group g, and the centering of its reads. */
    predicate NamesPin(e: Error, g: nat)
    {
      && e.stage == VFIFO && e.substage == VFIFO_CENTER
      && Times(g, limits.bits) <= e.group < Times(g + 1, limits.bits)
    }

    /** The error names a stage, and group g or one of its pins. */
    predicate NamesGroup(e: Error, g: nat)
    {
      e.stage in {VFIFO, WRITES, VFIFO_AFTER_WRITES} && (e.group == g || Times(g, limits.bits) <= e.group < Times(g + 1, limits.bits))
    }

    ghost predicate NoneMisses(t: seq<Attempt>) { forall k :: 0 <= k < |t| ==> !Misses(t[k]) }

    /** No attempt of the group met a pin without a window. */
    ghost predicate Clean(vs: Visits) { forall i :: 0 <= i < |vs| ==> NoneMisses(vs[i]) }

    /** The error names a group below n that is not masked out, or one of its pins. */
    ghost predicate Names(e: Error, n: nat) { exists h: nat :: h < n && !skipGroups(h) && NamesGroup(e, h) }

    /** The error record after groups that all passed: empty if no attempt missed a window, else a pin of one of them. */
    ghost predicate CleanError(runs: Runs, e: Error, n: nat)
    {
      if forall h :: h in runs ==> Clean(runs[h].visits) then e.stage == NIL
      else exists h: nat :: h < n && !skipGroups(h) && NamesPin(e, h)
    }

    lemma PinErrorIs(r: Record, g: nat, stage: int, substage: int)
      requires |r.left| == |r.right| == limits.bits && stage != NIL
      ensures AllEdges(r) ==> PinError(r, g, stage, substage) == NO_ERROR
      ensures !AllEdges(r) ==> PinError(r, g, stage, substage).stage == stage && PinError(r, g, stage, substage).substage == substage
      ensures !AllEdges(r) ==> Times(g, limits.bits) <= PinError(r, g, stage, substage).group < Times(g + 1, limits.bits)
    {
      if !AllEdges(r) {
        MissingPinInside(r, 0);
        TimesStep(g, limits.bits);
      }
    }

    lemma {:induction false} MissingPinInside(r: Record, i: nat)
      requires |r.left| == |r.right| && exists k :: i <= k < |r.left| && !BothEdges(r.phy, r.left[k], r.right[k])
      ensures i <= MissingPin(r, i) < |r.left|
      decreases |r.left| - i
    {
      if BothEdges(r.phy, r.left[i], r.right[i]) { MissingPinInside(r, i + 1); }
    }

    lemma AttemptErrorIs(a: Attempt, g: nat, n: nat)
      requires TrueAttempt(a, n)
      ensures if Misses(a) then NamesPin(AttemptError(a, g), g) else AttemptError(a, g) == NO_ERROR
    {
      hide SearchTrue, AllEdges, PinError;
      if a.reading.Some? { PinErrorIs(a.reading.value, g, VFIFO, VFIFO_CENTER); }
    }

    lemma {:induction false} TriedErrorIs(t: seq<Attempt>, g: nat, n: nat)
      requires Numbered(t, n)
      ensures if NoneMisses(t) then TriedError(t, g).stage == NIL else NamesPin(TriedError(t, g), g)
    {
      hide Misses, AttemptError, TrueAttempt;
      if t != [] {
        var k := |t| - 1;
        TriedErrorIs(t[..k], g, n);
        AttemptErrorIs(t[k], g, n + k);
        assert NoneMisses(t) <==> NoneMisses(t[..k]) && !Misses(t[k]);
      }
    }

    lemma {:induction false} VisitsErrorIs(vs: Visits, g: nat, first: nat, read: nat, start: int, slot: int)
      requires VisitsTrue(vs, first, read, start, slot)
      ensures if Clean(vs) then VisitsError(vs, g).stage == NIL else NamesPin(VisitsError(vs, g), g)
    {
      hide Numbered, TriedError, NoneMisses, PassFrom, SlotsFollow, Passed, NoneSucceeds;
      if vs != [] {
        var k := |vs| - 1;
        VisitsErrorIs(vs[..k], g, first, read, start, slot);
        if vs[k] == [] { NothingMissed(g); } else { TriedErrorIs(vs[k], g, first + Count(vs[..k])); }
        assert Clean(vs) <==> Clean(vs[..k]) && NoneMisses(vs[k]);
      }
    }

    lemma NothingMissed(g: nat)
      ensures NoneMisses([]) && TriedError([], g) == NO_ERROR
    {
    }

    lemma StageErrorIs(r: Record, g: nat, stage: int, substage: int)
      requires |r.left| == |r.right| == limits.bits && stage in {WRITES, VFIFO_AFTER_WRITES}
      ensures if Good(r) then StageError(r, g, stage, substage) == NO_ERROR else NamesGroup(StageError(r, g, stage, substage), g)
    {
      hide Good, PinError, AllEdges;
      PinErrorIs(r, g, stage, substage);
    }

    lemma RunErrorIs(r: GroupRun, g: nat)
      requires RunTrue(r, g)
      ensures if !RunPassed(r) then NamesGroup(RunError(r, g), g)
              else if Clean(r.visits) then RunError(r, g).stage == NIL else NamesPin(RunError(r, g), g)
    {
      hide VisitsTrue, Complete, VisitsError, Clean, Good, Passed, StageError, LastSubstage, StrobeAfter;
      VisitsErrorIs(r.visits, g, r.first, r.read, limits.inReserve, r.slot);
      if r.wrote.Some? {
        WriteLengths(r.wrote.value, writeEye(g), maskEye(g));
        StageErrorIs(r.wrote.value, g, WRITES, WRITES_CENTER);
      }
      if r.ended.Some? {
        RecordLengths(r.ended.value, endEye(g), limits.inMax);
        StageErrorIs(r.ended.value, g, VFIFO_AFTER_WRITES, VFIFO_CENTER);
      }
    }

    /** The error of groups that are true runs. */
    lemma {:induction false} GroupsErrorIs(n: nat, runs: Runs)
      requires forall h: nat :: h in runs ==> RunTrue(runs[h], h) && !skipGroups(h)
      ensures (exists h: nat :: h < n && h in runs && !RunPassed(runs[h])) ==> Names(GroupsError(n, runs), n)
      ensures if forall h: nat :: h < n && h in runs ==> RunPassed(runs[h]) && Clean(runs[h].visits) then GroupsError(n, runs).stage == NIL
              else Names(GroupsError(n, runs), n)
      ensures (forall h: nat :: h < n && h in runs ==> RunPassed(runs[h])) && GroupsError(n, runs).stage != NIL ==>
        exists h: nat :: h < n && !skipGroups(h) && NamesPin(GroupsError(n, runs), h)
    {
      hide RunTrue, RunPassed, RunError, Clean;
      if n > 0 {
        GroupsErrorIs(n - 1, runs);
        if n - 1 in runs { RunErrorIs(runs[n - 1], n - 1); }
      }
    }

    lemma ErrorMeans(banks: seq<Bank>, runs: Runs)
      requires AllRecorded(banks, runs) && Members(|banks|, runs) && (AllPassed(|banks|, runs) <==> !SomeFailed(runs))
      ensures if AllPassed(|banks|, runs) then CleanError(runs, GroupsError(|banks|, runs), |banks|)
              else Names(GroupsError(|banks|, runs), |banks|)
      ensures GroupsError(|banks|, runs).stage == NIL <==> !Names(GroupsError(|banks|, runs), |banks|)
    {
      hide RunTrue, RunPassed, ReadsAs, WritesAs, Clean, GroupsError;
      forall h: nat | h in runs ensures RunTrue(runs[h], h) && !skipGroups(h) {
        assert Recorded(banks[h], runs[h], h) && Reached(h, runs);
      }
      GroupsErrorIs(|banks|, runs);
    }

    // ---- What passing means ----

    /** The last attempt is a true one, the centre's read among its tests. */
    lemma {:induction false} LastIsTrue(vs: Visits, first: nat, read: nat, start: int, slot: int) returns (n: nat)
      requires VisitsTrue(vs, first, read, start, slot) && LastAttempt(vs).Some?
      ensures TrueAttempt(LastAttempt(vs).value, n)
    {
      hide TrueAttempt, PassFrom, SlotsFollow, NoneSucceeds, Passed;
      var k := |vs| - 1;
      if vs[k] == [] {
        n := LastIsTrue(vs[..k], first, read, start, slot);
      } else {
        n := first + Count(vs[..k]) + |vs[k]| - 1;
      }
    }

    /** The pins, where they are now, lie inside the windows the record measured, and those not at an end of their chain in the middle. */
    ghost predicate InsideWindows(g: DelayGroup, r: Record)
      reads g
    {
      var x := Final(g, r.start);
      && g == r.phy && |x| == |r.left| == |r.right| == |g.dq| && Inside(x, r.left, r.right)
      && forall i :: 0 <= i < |x| && 0 < g.dq[i] < g.dqMax ==> -1 <= (x[i] + r.left[i]) - (r.right[i] - x[i]) <= 1
    }

    lemma GoodIsInside(g: DelayGroup, r: Record)
      requires g == r.phy && r.x == Final(g, r.start) && g.dqs == r.strobe && Good(r) && Programs(r)
      ensures InsideWindows(g, r)
    {
      ProgramsBalanced(r);
      forall i | 0 <= i < |r.x| ensures PinDelay(r, i) == g.dq[i] {
      }
    }

    /**
     What passing means for a group's registers: the DQS-enable setting in force, slot, phase and delay, is the centre, and the
     latest read test was made at it and passed; every pin is inside its window and balanced in it, and so is the mask.
     */
    lemma PassedMeansInside(banks: seq<Bank>, runs: Runs, h: nat)
      requires AllRecorded(banks, runs) && AllPassed(|banks|, runs) && h < |banks| && !skipGroups(h)
      ensures h in runs && banks[h].ending.Centred?
      ensures banks[h].enable.phase == banks[h].ending.p && banks[h].enable.delay == banks[h].ending.d
      ensures banks[h].enable.AtRest(0) && banks[h].enable.JustPassed()
      ensures LastAttempt(runs[h].visits).Some? && banks[h].enable.pointer == SlotLeft(LastAttempt(runs[h].visits).value)
      ensures !skipShadow ==> runs[h].wrote.Some? && runs[h].ended.Some? && banks[h].mask.Passes()
      ensures !skipShadow ==> InsideWindows(banks[h].write, runs[h].wrote.value) && InsideWindows(banks[h].read, runs[h].ended.value)
      ensures !skipShadow ==> banks[h].mask.Balanced(banks[h].mask.dm, runs[h].wrote.value.dmLeft, runs[h].wrote.value.dmRight)
    {
      hide VisitsTrue, Complete, VisitsError, Faithful, InsideWindows, LastAttempt, EnableSearch.Measured, EnableSearch.SecondFailure;
      hide DelayGroup.Charted, Programs, EnableSearch.Tracked, EnableSearch.Centered;
      assert Recorded(banks[h], runs[h], h);
      var r := runs[h];
      var n := LastIsTrue(r.visits, r.first, r.read, limits.inReserve, r.slot);
      if !skipShadow {
        GoodIsInside(banks[h].write, r.wrote.value);
        GoodIsInside(banks[h].read, r.ended.value);
        WriteIsMeasured(r.wrote.value, h);
      }
    }

    lemma WriteIsMeasured(r: Record, g: nat)
      requires WriteRecord(r, writeEye(g), maskEye(g), limits.bits, limits.outMax) && Good(r)
      ensures r.mask.value.Balanced(r.dm, r.dmLeft, r.dmRight)
    {
      hide Faithful, Programs;
    }

    // ---- A run that passes and leaves an error ----

    /** The streams of the run below: reads fail at tests 0, 1 and 5 of each search; only the first attempt's eye is closed. */
    ghost predicate FirstEyeClosed()
    {
      && limits == SHIPPED && !skipShadow && (!checkGuaranteed || forall n: nat :: guaranteed(n))
      && (forall n: nat, k: nat :: verdicts(n)(k) <==> k != 0 && k != 1 && k != 5)
      && (forall n: nat :: readEye(n) == if n == 0 then CLOSED else OPEN)
      && writeEye(0) == endEye(0) == OPEN && forall k: int :: maskEye(0)(k)
    }

    /** Every attempt but the first succeeds; the first one misses a window. */
    lemma AttemptOutcome(a: Attempt, n: nat)
      requires FirstEyeClosed() && TrueAttempt(a, n)
      ensures if n == 0 then Misses(a) else Succeeded(a)
    {
      assert a.search.FailsAt015();
      a.search.ShortWindowFound(a.tr, a.e);
      if n == 0 {
        ClosedEyeMisses(a.reading.value, CLOSED, limits.bits, limits.inMax);
      } else {
        OpenReadPasses(a.reading.value, OPEN, limits.bits, limits.inMax);
      }
    }

    /** The first output delay is visited first, and no other if an attempt succeeds there. */
    lemma {:induction false} FirstVisit(vs: Visits, first: nat, read: nat, start: int, slot: int)
      requires VisitsTrue(vs, first, read, start, slot) && vs != []
      ensures OneVisit(vs[0], first, 0, start, slot, read) && (2 <= |vs| ==> !Passed([vs[0]]))
    {
      hide OneVisit, Passed;
      var k := |vs| - 1;
      if 0 < k {
        FirstVisit(vs[..k], first, read, start, slot);
        if k == 1 { assert vs[..1] == [vs[0]]; }
      } else {
        assert vs[..0] == [] && LastAttempt([]) == None;
      }
    }

    /** So read calibration passes at the second attempt, and what follows passes as well. */
    lemma OpenRunPasses(r: GroupRun)
      requires FirstEyeClosed() && RunTrue(r, 0) && r.first == 0
      ensures RunPassed(r) && !Clean(r.visits)
    {
      hide TrueAttempt, Succeeded, Misses, Good, ReadRecord, WriteRecord, VisitsTrue, Complete, StrobeAfter;
      FirstVisit(r.visits, 0, r.read, limits.inReserve, r.slot);
      var t := r.visits[0];
      AttemptOutcome(t[0], 0);
      assert !NoneMisses(t);
      if 2 <= |t| { AttemptOutcome(t[1], 1); }
      if 3 <= |t| { NotBefore(t, 1); }
      OnlyVisit(t);
      assert r.visits == [t];
      OpenWritePasses(r.wrote.value, OPEN, maskEye(0), limits.bits, limits.outMax);
      OpenReadPasses(r.ended.value, OPEN, limits.bits, limits.inMax);
    }

    lemma NotBefore(t: seq<Attempt>, k: nat)
      requires k + 1 < |t| && NoneSucceeds(t[..|t| - 1])
      ensures !Succeeded(t[k])
    {
      hide Succeeded;
      assert t[..|t| - 1][k] == t[k];
    }

    lemma OnlyVisit(t: seq<Attempt>)
      requires t != [] && Succeeded(t[|t| - 1])
      ensures Passed([t])
    {
    }

    /** The entry point on a single group, whose first attempt faces a closed eye. */
    method RunSingleGroup(b: Bank) returns (ok: bool)
      requires FirstEyeClosed() && !skipGroups(0) && latency && attempt == 0 && b.Valid() && b.limits == limits
      modifies this`attempt, this`error, this`readTests, b, b.read, b.write, b.mask, b.enable
      ensures ok && NamesPin(error, 0)
    {
      hide RunTrue, RunPassed, ReadsAs, WritesAs, Clean, GroupsError, Bank.Valid;
      ghost var runs;
      ok, runs := MemCalibrate([b], false);
      SingleRun([b], runs);
    }

    lemma SingleRun(banks: seq<Bank>, runs: Runs)
      requires FirstEyeClosed() && !skipGroups(0) && |banks| == 1 && AllRecorded(banks, runs) && Members(1, runs)
      requires 0 in runs ==> runs[0].first == 0
      ensures AllPassed(1, runs) && 0 in runs && !Clean(runs[0].visits)
    {
      hide RunTrue, RunPassed, ReadsAs, WritesAs, Clean;
      assert Reached(0, runs);
      assert Recorded(banks[0], runs[0], 0);
      OpenRunPasses(runs[0]);
    }
  }

  // The shipped configuration
  const SHIPPED := Limits(8, 31, 31, 16, 7, 31, 312, 25, 4, 4)
  const OPEN := Eye((i, k) => true, i => true)
  const CLOSED := Eye((i, k) => false, i => false)

  /**
   The entry point can return true with an error on record: the first attempt's centering finds a pin without
   a window, the second attempt and all later stages succeed.
   */
  method PassedWithErrorOnRecord() returns (c: Calibrator, ok: bool)
    ensures ok && c.NamesPin(c.error, 0)
  {
    ChainOf31();
    TimesIsProduct(32, 25);
    c := new Calibrator(SHIPPED, _ => false, false, false, false, true, _ => true, _ => k => k != 0 && k != 1 && k != 5,
                        n => if n == 0 then CLOSED else OPEN, _ => OPEN, _ => _ => true, _ => OPEN, true);
    var b := new Bank(SHIPPED);
    ok := c.RunSingleGroup(b);
  }
}
