/**
 The registers one DQS group owns, and the calibration steps that touch them.

 A group has a read side, a write side with its mask pin, a DQS-enable setting, an on-die-termination delay and
 an output phase. What the group's tests would say depends on everything set before; so each step faces
 an eye of its own, and takes over the registers as it finds them.
 */
module GroupBank {
  import opened DmSearch
  import opened DqsEnable
  import opened EyeCentering
  import opened EyeSweep
  import opened IntegerArithmetic
  import opened Results
  import opened WriteCenter

  /** What the tests of one sweep would say: at each delay difference, and when the entry setting is tested again. */
  datatype Eye = Eye(pass: (nat, int) -> bool, again: nat -> bool)

  /** Pins of a group, chain lengths, the DQS-enable geometry and the delays after reset. */
  datatype Limits = Limits(bits: nat, inMax: nat, outMax: nat, size: nat, phaseMax: nat, delayMax: nat, opa: nat, dchain: nat,
                           inReserve: nat, outReserve: nat)
  {
    ghost predicate Valid()
    {
      && 2 <= bits && inReserve <= inMax && outReserve <= outMax
      && 0 < size && 0 < phaseMax && 0 < dchain <= opa <= Times(delayMax, dchain) && opa <= Times(outMax + 1, dchain)
    }

    /** n delay taps are the most that stay below a phase tap. */
    ghost predicate TapsPerPhase(n: nat) { Times(n, dchain) < opa <= Times(n + 1, dchain) }
  }

  /**
   What one centering saw and did: the pins it worked on, the strobe delay it was entered with, where its sweeps stopped, the
   edges, their smallest spread, the final positions, where the strobe went, and the mask line, its delay and its
   edges (none and 0 for reads).
   */
  datatype Record = Record(phy: DelayGroup, start: int, cut: int, stop: int, left: seq<int>, right: seq<int>, m: int, x: seq<int>, strobe: int,
                           mask: Option<MaskLine>, dm: int, dmLeft: int, dmRight: int)

  /** Every pin has shown a window. */
  ghost predicate AllEdges(r: Record)
  {
    |r.left| == |r.right| && forall i :: 0 <= i < |r.left| ==> BothEdges(r.phy, r.left[i], r.right[i])
  }

  /** Every pin and the mask are inside their windows. */
  ghost predicate Good(r: Record)
  {
    AllEdges(r) && |r.x| == |r.left| && Inside(r.x, r.left, r.right) && 0 <= r.dmLeft
  }

  ghost predicate Ordered(r: Record)
    requires |r.left| == |r.right| == r.phy.bits
  {
    OrderedEdges(r.phy, r.start, r.left, r.right)
  }

  /** The first pin from i on that has not shown a window, or the number of pins. */
  function MissingPin(r: Record, i: nat): nat
    requires |r.left| == |r.right|
    decreases |r.left| - i
  {
    if |r.left| <= i || r.left[i] == r.phy.Illegal() || r.right[i] == r.phy.Illegal() then i else MissingPin(r, i + 1)
  }

  lemma {:induction false} MissingPinIs(r: Record, i: nat, k: nat)
    requires |r.left| == |r.right| && i <= k <= |r.left| && forall n :: i <= n < k ==> BothEdges(r.phy, r.left[n], r.right[n])
    requires k < |r.left| ==> !BothEdges(r.phy, r.left[k], r.right[k])
    ensures MissingPin(r, i) == k && (AllEdges(r) && i == 0 ==> k == |r.left|)
    decreases k - i
  {
    if i < k { MissingPinIs(r, i + 1, k); }
  }

  /** Every pin is delayed by its clamped wish; its delay is what the strobe moved less its position. */
  ghost predicate Programs(r: Record)
  {
    && |r.left| == |r.right| == |r.x| && IsMinSpread(r.m, r.left, r.right)
    && forall i :: 0 <= i < |r.x| ==> PinDelay(r, i) == Clamp(Want(r.left[i], r.right[i], r.m, r.start - r.strobe), 0, r.phy.dqMax)
  }

  /** What centering programmed, read off the record. */
  lemma ProgramsIs(r: Record, strobe: int)
    requires |r.left| == |r.right| == r.phy.bits == |r.phy.dq| && r.x == Final(r.phy, r.start) && r.strobe == r.phy.dqs
    requires Programmed(r.phy, r.start, strobe, r.m, r.left, r.right)
    ensures Programs(r) && r.strobe == strobe
  {
    hide IsMinSpread, Want;
  }

  function PinDelay(r: Record, i: nat): int
    requires i < |r.x|
  {
    r.strobe - r.start - r.x[i]
  }

  /** No pin is delayed. */
  predicate PinsIdle(r: Record) { forall i | 0 <= i < |r.x| :: PinDelay(r, i) == 0 }

  /**
   A pin whose delay is not at an end of the chain has both edges of its window equally far away, to one tap.
   */
  ghost predicate BalancedPins(r: Record)
    requires |r.left| == |r.right| == |r.x|
  {
    forall i :: 0 <= i < |r.x| && 0 < PinDelay(r, i) < r.phy.dqMax ==> -1 <= (r.x[i] + r.left[i]) - (r.right[i] - r.x[i]) <= 1
  }

  lemma ProgramsBalanced(r: Record)
    requires Programs(r)
    ensures BalancedPins(r)
  {
    forall i | 0 <= i < |r.x| && 0 < PinDelay(r, i) < r.phy.dqMax ensures -1 <= (r.x[i] + r.left[i]) - (r.right[i] - r.x[i]) <= 1 {
      UnclampedIsBalanced(r.left[i], r.right[i], r.m, r.start - r.strobe, r.x[i]);
    }
  }

  /** The record is of a sweep of n pins with chains up to max that faced this eye, and its edges are what the eye shows. */
  ghost predicate Faithful(r: Record, eye: Eye, n: nat, max: nat)
  {
    && r.phy.eye == eye.pass && r.phy.retest == eye.again && r.phy.bits == n && r.phy.dqMax == r.phy.dqsMax == max
    && |r.left| == |r.right| == |r.x| == n && 0 <= r.start <= max && 0 <= r.strobe <= max
    && r.phy.Charted(r.start, r.mask.None?, r.cut, r.stop, r.left, r.right)
    && forall i :: 0 <= i < n ==> r.phy.Swept(i, r.start, r.left[i], r.right[i])
  }

  /**
   A read record: with all windows seen, strobe and pins are centered, otherwise they are back where they were; it is good exactly
   if every right edge can be reached.
   */
  ghost predicate ReadRecord(r: Record, eye: Eye, n: nat, max: nat)
  {
    && Faithful(r, eye, n, max) && r.mask.None? && r.dm == r.dmLeft == r.dmRight == 0
    && (if AllEdges(r) then Programs(r) && r.strobe == ReadStrobe(r.m, r.start, max) else r.strobe == r.start && PinsIdle(r))
    && (AllEdges(r) && Ordered(r) ==> (Good(r) <==> CanReach(r.phy, r.strobe - r.start, r.right)))
  }

  /**
   A write record: with all windows seen, the strobe is where it was and pins and mask are centered; otherwise the pins are not
   delayed and the strobe is where the sweep ended. It is good exactly if no window, the mask's included, lies wholly right of
   position 0.
   */
  ghost predicate WriteRecord(r: Record, eye: Eye, maskEye: int -> bool, n: nat, max: nat)
  {
    && Faithful(r, eye, n, max) && r.mask.Some? && r.mask.value.eye == maskEye && r.mask.value.max == max && r.mask.value.base == r.start
    && (if AllEdges(r) then Programs(r) && r.strobe == r.start && MaskMeasured(r.mask.value, r.dm, r.dmLeft, r.dmRight)
        else r.strobe == r.phy.StrobeAt(r.start, r.stop) && PinsIdle(r))
    && (AllEdges(r) && Ordered(r) ==> (Good(r) <==> 0 <= r.dmLeft && forall i :: 0 <= i < n ==> 0 <= r.left[i]))
  }

  /**
   The mask's edges are those of its first longest passing run, and its delay dm is balanced between them; without a
   run the left edge is negative and the mask is not delayed.
   */
  ghost predicate MaskMeasured(m: MaskLine, dm: int, left: int, right: int)
  {
    if m.Blocked() then left < 0 && dm == 0 else m.FirstLongest(-left, right, m.max - m.base + 1) && m.Balanced(dm, left, right)
  }

  /** A sweep misses an edge exactly if some pin is windowless in its eye. */
  lemma MissingEdge(r: Record, eye: Eye, n: nat, max: nat)
    requires Faithful(r, eye, n, max)
    ensures AllEdges(r) <==> forall i :: 0 <= i < n ==> !r.phy.Windowless(i, r.start)
  {
    forall i | 0 <= i < n ensures BothEdges(r.phy, r.left[i], r.right[i]) <==> !r.phy.Windowless(i, r.start) {
      r.phy.MissingIffWindowless(i, r.start, r.left[i], r.right[i]);
    }
  }

  /** A pin that passes nowhere has no window. */
  lemma ClosedEyeMisses(r: Record, eye: Eye, n: nat, max: nat)
    requires 0 < n && Faithful(r, eye, n, max)
    requires (forall i: nat, k: int :: !eye.pass(i, k)) && forall i: nat :: !eye.again(i)
    ensures !AllEdges(r)
  {
    MissingEdge(r, eye, n, max);
    assert r.phy.Windowless(0, r.start);
  }

  /** The report for pins that pass everywhere: the whole range. */
  lemma OpenEdges(r: Record, eye: Eye, n: nat, max: nat)
    requires Faithful(r, eye, n, max) && (forall i: nat, k: int :: eye.pass(i, k)) && forall i: nat :: eye.again(i)
    ensures AllEdges(r) && Ordered(r) && forall i :: 0 <= i < n ==> r.left[i] == max && r.right[i] == max - r.start
  {
    forall i | 0 <= i < n ensures r.left[i] == max && r.right[i] == max - r.start {
      var g := r.phy;
      assert g.InRange(r.start, 0 - max) && g.Pass(i, r.start, 0 - max) && g.InRange(r.start, max - r.start);
      assert g.ExactWindow(i, r.start, r.left[i], r.right[i]);
    }
  }

  lemma OpenReadPasses(r: Record, eye: Eye, n: nat, max: nat)
    requires ReadRecord(r, eye, n, max) && (forall i: nat, k: int :: eye.pass(i, k)) && forall i: nat :: eye.again(i)
    ensures Good(r)
  {
    OpenEdges(r, eye, n, max);
  }

  lemma OpenWritePasses(r: Record, eye: Eye, maskEye: int -> bool, n: nat, max: nat)
    requires WriteRecord(r, eye, maskEye, n, max)
    requires (forall i: nat, k: int :: eye.pass(i, k)) && (forall i: nat :: eye.again(i)) && forall k :: maskEye(k)
    ensures Good(r)
  {
    OpenEdges(r, eye, n, max);
    var m := r.mask.value;
    assert m.InRange(0) && m.Pass(0) && m.Run(0 - max, max - m.base);
  }

  /** The values of a group's registers. */
  datatype Registers = Registers(dqIn: seq<int>, dqsIn: int, dqOut: seq<int>, dqsOut: int, dmOut: int,
                                 slot: nat, phase: int, delay: int, oct: int, outPhase: int)

  /** Data delays in equal steps over the chain. */
  ghost predicate Staircase(dq: seq<int>, l: Limits)
  {
    2 <= l.bits == |dq| && forall i :: 0 <= i < l.bits ==> dq[i] == Times(i, l.inMax / (l.bits - 1))
  }

  class Bank {
    const limits: Limits
    var read: DelayGroup
    var write: DelayGroup
    var mask: MaskLine
    var enable: EnableSearch
    var oct: int
    var outPhase: int
    ghost var ending: Ending      // how the latest DQS-enable search ended

    /** The objects that make up the bank. */
    function Objects(): set<object>
      reads this
    {
      {this, read, write, mask, enable}
    }

    ghost predicate ApartFrom(b: Bank)
      reads this, b
    {
      this != b && {read, write} !! {b.read, b.write} && mask != b.mask && enable != b.enable
    }

    /** No data pin and no mask pin of the output side is delayed. */
    ghost predicate OutputsIdle()
      reads this`write, this`mask, write, mask
    {
      mask.dm == 0 && forall i :: 0 <= i < |write.dq| ==> write.dq[i] == 0
    }

    /** The output side while read calibration tries output delay d; for 0 that is the reserve. */
    ghost predicate OutputsAt(d: nat)
      reads this`write, this`mask, this`oct, this`outPhase, write, mask
    {
      OutputsIdle() && outPhase == 0 && write.dqs == oct == if d == 0 then limits.outReserve else d
    }

    /** Neither the registers nor their values changed. */
    twostate predicate Kept()
      reads this, read, write, mask, enable
    {
      && read == old(read) && write == old(write) && mask == old(mask) && enable == old(enable)
      && Values() == old(Values())
    }

    /** The settings that come before calibration are in force; everything else is as it was. */
    twostate predicate WasReset()
      reads this, read, write, mask, enable
    {
      && read == old(read) && write == old(write) && mask == old(mask) && enable == old(enable)
      && Values() == old(Values()).(dqsIn := limits.inReserve, phase := 0, delay := 0, oct := limits.outReserve, outPhase := 0)
    }

    /** The registers are held by the objects that held them, or by new ones. */
    twostate predicate Renewed()
      reads this
    {
      && (read == old(read) || fresh(read)) && (write == old(write) || fresh(write))
      && (mask == old(mask) || fresh(mask)) && (enable == old(enable) || fresh(enable))
    }

    ghost predicate Valid()
      reads this, read, write, mask, enable
    {
      && limits.Valid() && read != write
      && read.Valid() && read.bits == limits.bits && read.dqMax == read.dqsMax == limits.inMax
      && write.Valid() && write.bits == limits.bits && write.dqMax == write.dqsMax == limits.outMax
      && mask.Valid() && mask.max == limits.outMax
      && enable.Valid() && enable.size == limits.size
    }

    function Values(): Registers
      reads this, read, write, mask, enable
    {
      Registers(read.dq, read.dqs, write.dq, write.dqs, mask.dm, enable.pointer, enable.phase, enable.delay, oct, outPhase)
    }

    constructor (limits: Limits)
      requires limits.Valid()
      ensures Valid() && this.limits == limits && fresh(Objects())
    {
      this.limits := limits;
      read := new DelayGroup(limits.bits, limits.inMax, limits.inMax, (i, k) => false, i => false, limits.inReserve);
      write := new DelayGroup(limits.bits, limits.outMax, limits.outMax, (i, k) => false, i => false, limits.outReserve);
      mask := new MaskLine(limits.outMax, limits.outReserve, 0, k => false);
      enable := new EnableSearch(limits.size, limits.phaseMax, limits.delayMax, limits.opa, limits.dchain, 0, n => false);
      oct, outPhase := limits.outReserve, 0;
    }

    method SetStrobe(tap: nat)
      requires Valid() && tap <= limits.inMax
      modifies read`dqs
      ensures Valid() && read.dqs == tap
    {
      read.dqs := tap;
    }

    method SetOutputPhase(p: nat)
      requires Valid()
      modifies this`outPhase
      ensures Valid() && outPhase == p
    {
      outPhase := p;
    }

    /** The output side for one round of read calibration: phase 0, and the added delay unless it is zero. */
    method PrepareOutputs(delay: nat)
      requires Valid() && delay <= limits.outMax
      modifies this`oct, this`outPhase, write`dqs, mask`dqs
      ensures Valid()
      ensures Values() == if delay == 0 then old(Values()).(outPhase := 0) else old(Values()).(dqsOut := delay, oct := delay, outPhase := 0)
    {
      if delay > 0 {
        AddOutDelay(delay);
      }
      SetOutputPhase(0);
    }

    /** The settings every group is given before calibration, masked out or not. */
    method Reset()
      requires Valid()
      modifies this`oct, this`outPhase, read`dqs, enable`phase, enable`delay
      ensures Valid()
      ensures WasReset()
    {
      read.dqs := limits.inReserve;
      enable.phase, enable.delay := 0, 0;
      outPhase, oct := 0, limits.outReserve;
    }

    /** The output side back to its start: data and mask delays zero, strobe and termination at the reserve. */
    method ZeroOutputs()
      requires Valid()
      modifies this`oct, write`dq, write`dqs, mask`dm, mask`dqs
      ensures Valid()
      ensures Values() == old(Values()).(dqOut := seq(limits.bits, _ => 0), dqsOut := limits.outReserve, dmOut := 0, oct := limits.outReserve)
    {
      write.dq := seq(limits.bits, _ => 0);
      mask.dm := 0;
      write.dqs, mask.dqs := limits.outReserve, limits.outReserve;
      oct := limits.outReserve;
    }

    /** The same, and the input data delays zero. */
    method ZeroGroup()
      requires Valid()
      modifies this`oct, read`dq, write`dq, write`dqs, mask`dm, mask`dqs
      ensures Valid()
      ensures var zero := seq(limits.bits, _ => 0);
        Values() == old(Values()).(dqIn := zero, dqOut := zero, dqsOut := limits.outReserve, dmOut := 0, oct := limits.outReserve)
    {
      read.dq := seq(limits.bits, _ => 0);
      ZeroOutputs();
    }

    /**
     A delay added to the whole output side. The second output chain has no taps here, so the data and mask delays
     stay and the strobe and termination delays become the added amount.
     */
    method AddOutDelay(delay: nat)
      requires Valid() && 0 < delay <= limits.outMax
      modifies this`oct, write`dqs, mask`dqs
      ensures Valid() && Values() == old(Values()).(dqsOut := delay, oct := delay)
    {
      write.dqs, mask.dqs := delay, delay;
      oct := delay;
    }

    /** A staircase of data delays, so that some pin can be read whatever the strobe delay. */
    method SpreadInputs()
      requires Valid()
      modifies read`dq
      ensures Valid() && Staircase(read.dq, limits)
    {
      var step := limits.inMax / (limits.bits - 1);
      forall i | 0 <= i < limits.bits ensures 0 <= Times(i, step) <= limits.inMax {
        StaircaseFits(i, step, limits.bits - 1, limits.inMax);
      }
      read.dq := seq(limits.bits, i requires 0 <= i < limits.bits => Times(i, step));
    }

    /** The DQS-enable search of the group, with the data delays spread while it runs. */
    method Search(verdict: nat -> bool) returns (ok: bool, ghost spread: seq<int>)
      requires Valid()
      modifies this`enable, this`ending, read`dq
      ensures Valid() && fresh(enable) && read.dq == seq(limits.bits, _ => 0)
      ensures Staircase(spread, limits)
      ensures enable.entry == old(enable.pointer) && enable.AtRest(enable.Beyonds(ending))
      ensures ok <==> ending.Centred?
      ensures SearchTrue(enable, enable.trace, ending, verdict, limits)
      ensures ok ==> enable.phase == ending.p && enable.delay == ending.d
    {
      SpreadInputs();
      spread := read.dq;
      enable := new EnableSearch(limits.size, limits.phaseMax, limits.delayMax, limits.opa, limits.dchain, enable.pointer, verdict);
      var v, dtaps;
      ok, v, dtaps, ending := enable.FindDqsEnPhase();
      read.dq := seq(limits.bits, _ => 0);
    }

    /** Read centering, with the read test or after writes with the write test. */
    method CenterReads(eye: Eye) returns (ok: bool, failing: nat, ghost r: Record)
      requires Valid()
      modifies this`read
      ensures Valid() && fresh(read) && r.phy == read && r.start == old(read.dqs) && r.strobe == read.dqs
      ensures ReadRecord(r, eye, limits.bits, limits.inMax) && (ok <==> Good(r))
      ensures failing == MissingPin(r, 0) <= limits.bits && (failing == limits.bits <==> AllEdges(r))
      ensures r.x == Final(read, r.start)
    {
      hide DelayGroup.Charted, DelayGroup.Swept, Programmed, Programs, Reported;
      read := new DelayGroup.Facing(read, eye.pass, eye.again);
      var start := read.dqs;
      var left, right, dqMargin, dqsMargin;
      ghost var m, cut, stop;
      ok, failing, left, right, m, dqMargin, dqsMargin, cut, stop := ReadCenter(read);
      r := Record(read, start, cut, stop, left, right, m, Final(read, start), read.dqs, None, 0, 0, 0);
      MissingPinIs(r, 0, failing);
      if failing == limits.bits { ProgramsIs(r, ReadStrobe(m, start, limits.inMax)); }
    }

    /** Write centering of the data pins and the mask; the termination delay follows the strobe. */
    method CenterWrites(eye: Eye, maskEye: int -> bool) returns (ok: bool, failing: nat, ghost r: Record)
      requires Valid()
      modifies this`write, this`mask, this`oct
      ensures Valid() && fresh(write) && fresh(mask) && r.phy == write && r.start == old(write.dqs)
      ensures WriteRecord(r, eye, maskEye, limits.bits, limits.outMax) && (ok <==> Good(r)) && (ok ==> mask.Passes())
      ensures r.mask == Some(mask) && mask.dm == r.dm && oct == write.dqs == mask.dqs == r.strobe
      ensures failing == MissingPin(r, 0) <= limits.bits && (failing == limits.bits <==> AllEdges(r))
      ensures r.x == Final(write, r.start) && (!AllEdges(r) ==> mask.dm == old(mask.dm))
    {
      hide DelayGroup.Charted, DelayGroup.Swept, Programmed, Programs;
      var start := write.dqs;
      write := new DelayGroup.Facing(write, eye.pass, eye.again);
      mask := new MaskLine(limits.outMax, start, mask.dm, maskEye);
      var left, right;
      ghost var m, dmLeft, dmRight, cut, stop;
      ok, failing, left, right, m, dmLeft, dmRight, cut, stop := WritesCenter(write, mask);
      mask.dqs := write.dqs;
      oct := write.dqs;
      r := Record(write, start, cut, stop, left, right, m, Final(write, start), write.dqs, Some(mask), mask.dm, dmLeft, dmRight);
      MissingPinIs(r, 0, failing);
      if failing == limits.bits { ProgramsIs(r, start); }
    }
  }

  /** All objects of the banks. */
  function Owned(banks: seq<Bank>): set<object>
    reads banks
  {
    set i, o | 0 <= i < |banks| && o in banks[i].Objects() :: o
  }

  ghost predicate AllValid(banks: seq<Bank>, limits: Limits)
    reads banks, Owned(banks)
  {
    forall i :: 0 <= i < |banks| ==> assert banks[i].Objects() <= Owned(banks); banks[i].Valid() && banks[i].limits == limits
  }

  /** No register belongs to two groups. */
  ghost predicate Apart(banks: seq<Bank>)
    reads banks
  {
    forall i, j :: 0 <= i < |banks| && 0 <= j < |banks| && i != j ==> banks[i].ApartFrom(banks[j])
  }

  lemma StaircaseFits(i: int, step: int, steps: int, max: int)
    requires 0 <= i <= steps && 0 < steps && 0 <= max && 0 <= step == max / steps
    ensures 0 <= Times(i, step) <= max
  {
    QuotientBounds(max, steps);
    TimesIsProduct(max / steps, steps);
    TimesIsProduct(steps, step);
    TimesNonNegative(i, step);
    TimesMonotonic(i, steps, step);
  }

  /** The search met this stream of verdicts, in the group's geometry, and ended as it says. */
  ghost predicate SearchTrue(s: EnableSearch, tr: seq<Setting>, e: Ending, verdict: nat -> bool, l: Limits)
  {
    && s.verdict == verdict && s.size == l.size && s.phaseMax == l.phaseMax && s.delayMax == l.delayMax
    && s.opa == l.opa && s.dchain == l.dchain && s.Ended(tr, e, 0)
  }
}
