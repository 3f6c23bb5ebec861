/**
 Centering of the per-bit eyes measured by the sweeps: one strobe delay for the group, one data
 delay per pin, and the margins that decide whether calibration of the group succeeded.
 */
module EyeCentering {
  import opened EyeSweep
  import opened IntegerArithmetic

  function Clamp(x: int, lo: int, hi: int): int { if x > hi then hi else if x < lo then lo else x }

  /** Twice the distance of a bit's centre left of position 0. */
  function Spread(left: int, right: int): int { left - right }

  /** How far left of position 0 the strobe aims for the bit with the smallest spread m. */
  function Aim(m: int): int { CHalf(if m > 0 then m + 1 else m) }

  /** The data delay a bit would need; `moved` is how much the strobe delay was reduced. */
  function Want(left: int, right: int, m: int, moved: int): int
  {
    CHalf(Spread(left, right) - m) + (Aim(m) - moved)
  }

  function ReadStrobe(m: int, start: int, dqsMax: int): int { Clamp(start - Aim(m), 0, dqsMax) }

  ghost predicate IsMinSpread(m: int, left: seq<int>, right: seq<int>)
    requires |left| == |right|
  {
    && (forall i :: 0 <= i < |left| ==> m <= Spread(left[i], right[i]))
    && (exists i :: 0 <= i < |left| && m == Spread(left[i], right[i]))
  }

  /** margin is the smallest of the values, or the cap if all are larger. */
  ghost predicate IsMargin(margin: int, cap: int, values: seq<int>)
  {
    && margin <= cap
    && (forall i :: 0 <= i < |values| ==> margin <= values[i])
    && (margin == cap || exists i :: 0 <= i < |values| && margin == values[i])
  }

  /** Final positions of the bits when the strobe moved by `shift` and the pins are delayed by dq. */
  function Positions(dq: seq<int>, shift: int): seq<int>
  {
    seq(|dq|, i requires 0 <= i < |dq| => shift - dq[i])
  }

  /** Distances of the positions to the left edges, and to the right edges. */
  function LeftMargins(x: seq<int>, left: seq<int>): seq<int>
    requires |x| == |left|
  {
    seq(|x|, i requires 0 <= i < |x| => x[i] + left[i])
  }

  function RightMargins(x: seq<int>, right: seq<int>): seq<int>
    requires |x| == |right|
  {
    seq(|x|, i requires 0 <= i < |x| => right[i] - x[i])
  }

  /** Final positions of a group entered with strobe delay start. */
  ghost function Final(g: DelayGroup, start: int): seq<int>
    reads g
  {
    Positions(g.dq, g.dqs - start)
  }

  ghost predicate BothEdges(g: DelayGroup, left: int, right: int)
  {
    left != g.Illegal() && right != g.Illegal()
  }

  /** The delays centering programs: strobe at `strobe`, each pin at its clamped wish. */
  ghost predicate Programmed(g: DelayGroup, start: int, strobe: int, m: int, left: seq<int>, right: seq<int>)
    requires |left| == |right| == g.bits == |g.dq|
    reads g
  {
    && IsMinSpread(m, left, right)
    && g.dqs == strobe
    && forall i :: 0 <= i < g.bits ==> g.dq[i] == Clamp(Want(left[i], right[i], m, start - strobe), 0, g.dqMax)
  }

  ghost predicate Inside(x: seq<int>, left: seq<int>, right: seq<int>)
    requires |left| == |right| == |x|
  {
    forall i :: 0 <= i < |x| ==> -left[i] <= x[i] <= right[i]
  }

  // ---------------------------------------------------------------------------------------
  // Arithmetic of one bit
  // ---------------------------------------------------------------------------------------

  /** Aim rounds half the spread up, whatever its sign. */
  lemma AimIsCeiling(m: int)
    ensures 2 * Aim(m) - 1 <= m <= 2 * Aim(m)
  {
  }

  lemma HalfIsFloor(x: int)
    requires 0 <= x
    ensures 2 * CHalf(x) <= x <= 2 * CHalf(x) + 1
  {
  }

  /**
   A bit whose data delay is not clamped ends with margins that differ by at most one tap,
   whether or not the strobe itself was clamped; if its edges are in order it is inside.
   */
  lemma UnclampedIsBalanced(left: int, right: int, m: int, moved: int, x: int)
    requires m <= Spread(left, right)
    requires x == -moved - Want(left, right, m, moved)
    ensures -1 <= (x + left) - (right - x) <= 1
    ensures -left <= right ==> -left <= x <= right
  {
    AimIsCeiling(m);
    HalfIsFloor(Spread(left, right) - m);
  }

  /** The strobe never has to be clamped at the end of its chain, only at zero. */
  lemma StrobeClampOnlyAtZero(left: int, right: int, start: int, dqsMax: int)
    requires -left <= right <= dqsMax - start && 0 <= start <= dqsMax
    ensures start - Aim(Spread(left, right)) <= dqsMax
    ensures ReadStrobe(Spread(left, right), start, dqsMax)
         == (if start < Aim(Spread(left, right)) then 0 else start - Aim(Spread(left, right)))
  {
    AimIsCeiling(Spread(left, right));
  }

  /** After read centering a bit is inside its window exactly when its right edge can be reached. */
  lemma ReadBitInside(left: int, right: int, m: int, start: int, dqsMax: int, dqMax: int)
    requires -left <= right && left <= dqMax && m <= Spread(left, right)
    requires start - Aim(m) <= dqsMax && 0 <= start <= dqsMax && 0 <= dqMax
    ensures var strobe := ReadStrobe(m, start, dqsMax);
            var x := (strobe - start) - Clamp(Want(left, right, m, start - strobe), 0, dqMax);
            -left <= x <= right <==> strobe - start - dqMax <= right
  {
    var strobe := ReadStrobe(m, start, dqsMax);
    var want := Want(left, right, m, start - strobe);
    AimIsCeiling(m);
    HalfIsFloor(Spread(left, right) - m);
    assert 0 <= want;
    UnclampedIsBalanced(left, right, m, start - strobe, (strobe - start) - want);
  }

  /** After write centering a bit is inside its window exactly when the window reaches position 0. */
  lemma WriteBitInside(left: int, right: int, m: int, dqMax: int)
    requires -left <= right && left <= dqMax && m <= Spread(left, right) && 0 <= dqMax
    requires -dqMax <= right
    ensures var x := -Clamp(Want(left, right, m, 0), 0, dqMax);
            -left <= x <= right <==> 0 <= left
  {
    AimIsCeiling(m);
    HalfIsFloor(Spread(left, right) - m);
    UnclampedIsBalanced(left, right, m, 0, -Want(left, right, m, 0));
  }

  // ---------------------------------------------------------------------------------------
  // Whole groups
  // ---------------------------------------------------------------------------------------

  /** Edges of a swept group in which every bit is steady and has a window. */
  ghost predicate OrderedEdges(g: DelayGroup, start: int, left: seq<int>, right: seq<int>)
    requires |left| == |right| == g.bits
  {
    forall i :: 0 <= i < g.bits ==>
      -left[i] <= right[i] && g.InRange(start, -left[i]) && g.InRange(start, right[i])
  }

  /** With the strobe moved by `moved`, every right edge can be reached with the longest data delay. */
  ghost predicate CanReach(g: DelayGroup, moved: int, right: seq<int>)
    requires |right| == g.bits
  {
    forall i :: 0 <= i < g.bits ==> moved - g.dqMax <= right[i]
  }

  /** Read centering succeeds iff every right edge can be reached with the chosen strobe delay. */
  lemma ReadSuccessCondition(g: DelayGroup, start: int, m: int, left: seq<int>, right: seq<int>)
    requires g.Valid() && 0 <= start <= g.dqsMax && |left| == |right| == g.bits
    requires OrderedEdges(g, start, left, right)
    requires Programmed(g, start, ReadStrobe(m, start, g.dqsMax), m, left, right)
    ensures Inside(Final(g, start), left, right) <==> CanReach(g, g.dqs - start, right)
  {
    var k :| 0 <= k < g.bits && m == Spread(left[k], right[k]);
    StrobeClampOnlyAtZero(left[k], right[k], start, g.dqsMax);
    forall i | 0 <= i < g.bits
      ensures -left[i] <= Final(g, start)[i] <= right[i] <==> g.dqs - start - g.dqMax <= right[i]
    {
      ReadBitInside(left[i], right[i], m, start, g.dqsMax, g.dqMax);
    }
  }

  /** If no data delay is clamped, read centering succeeds and every bit is balanced. */
  lemma ReadBalanced(g: DelayGroup, start: int, m: int, left: seq<int>, right: seq<int>)
    requires g.Valid() && 0 <= start <= g.dqsMax && |left| == |right| == g.bits
    requires OrderedEdges(g, start, left, right)
    requires Programmed(g, start, ReadStrobe(m, start, g.dqsMax), m, left, right)
    requires forall i :: 0 <= i < g.bits ==> Want(left[i], right[i], m, start - g.dqs) <= g.dqMax
    ensures Inside(Final(g, start), left, right)
    ensures forall i :: 0 <= i < g.bits ==>
      -1 <= LeftMargins(Final(g, start), left)[i] - RightMargins(Final(g, start), right)[i] <= 1
  {
    var k :| 0 <= k < g.bits && m == Spread(left[k], right[k]);
    StrobeClampOnlyAtZero(left[k], right[k], start, g.dqsMax);
    AimIsCeiling(m);
    forall i | 0 <= i < g.bits
      ensures -left[i] <= Final(g, start)[i] <= right[i]
      ensures -1 <= LeftMargins(Final(g, start), left)[i] - RightMargins(Final(g, start), right)[i] <= 1
    {
      HalfIsFloor(Spread(left[i], right[i]) - m);
      UnclampedIsBalanced(left[i], right[i], m, start - g.dqs, Final(g, start)[i]);
    }
  }

  /** Write centering of the data pins succeeds iff every window reaches position 0 or lies left of it. */
  lemma WriteSuccessCondition(g: DelayGroup, start: int, m: int, left: seq<int>, right: seq<int>)
    requires g.Valid() && 0 <= start <= g.dqsMax && |left| == |right| == g.bits
    requires OrderedEdges(g, start, left, right)
    requires Programmed(g, start, start, m, left, right)
    ensures Inside(Final(g, start), left, right) <==> forall i :: 0 <= i < g.bits ==> 0 <= left[i]
  {
    forall i | 0 <= i < g.bits
      ensures -left[i] <= Final(g, start)[i] <= right[i] <==> 0 <= left[i]
    {
      WriteBitInside(left[i], right[i], m, g.dqMax);
    }
  }

  /** A final position inside an exact window is a position at which the bit passes its test. */
  lemma InsidePasses(g: DelayGroup, start: int, left: seq<int>, right: seq<int>, i: nat)
    requires g.Valid() && 0 <= start <= g.dqsMax && |left| == |right| == g.bits && i < g.bits
    requires Inside(Final(g, start), left, right) && g.Swept(i, start, left[i], right[i])
    requires BothEdges(g, left[i], right[i]) && g.Steady(i, start) && g.Convex(i, start)
    ensures g.eye(i, g.dqs - g.dq[i])
  {
    assert g.InRange(start, -left[i]) && g.InRange(start, right[i]);
    assert g.Pass(i, start, Final(g, start)[i]);
  }

  // ---------------------------------------------------------------------------------------
  // The routines
  // ---------------------------------------------------------------------------------------

  /** The first bit without a window, or the number of bits. */
  method FirstMissing(g: DelayGroup, left: seq<int>, right: seq<int>) returns (failing: nat)
    requires |left| == |right| == g.bits
    ensures failing <= g.bits
    ensures forall i :: 0 <= i < failing ==> BothEdges(g, left[i], right[i])
    ensures failing < g.bits ==> !BothEdges(g, left[failing], right[failing])
  {
    for i := 0 to g.bits
      invariant forall k :: 0 <= k < i ==> BothEdges(g, left[k], right[k])
    {
      if left[i] == g.Illegal() || right[i] == g.Illegal() {
        return i;
      }
    }
    return g.bits;
  }

  method SmallestSpread(left: seq<int>, right: seq<int>) returns (m: int, minIndex: nat)
    requires |left| == |right| > 0
    ensures minIndex < |left| && m == Spread(left[minIndex], right[minIndex])
    ensures IsMinSpread(m, left, right)
  {
    m, minIndex := left[0] - right[0], 0;
    for i := 1 to |left|
      invariant minIndex < |left| && m == Spread(left[minIndex], right[minIndex])
      invariant forall k :: 0 <= k < i ==> m <= Spread(left[k], right[k])
    {
      var mid := left[i] - right[i];
      if mid < m {
        m, minIndex := mid, i;
      }
    }
    assert m == Spread(left[minIndex], right[minIndex]);
  }

  /** What both centering routines report once every bit has shown a window. */
  ghost predicate Reported(g: DelayGroup, x: seq<int>, left: seq<int>, right: seq<int>, dqMargin: int, dqsMargin: int)
    requires |left| == |right| == |x|
  {
    && IsMargin(dqMargin, g.Illegal(), LeftMargins(x, left))
    && IsMargin(dqsMargin, g.Illegal(), RightMargins(x, right))
  }

  /**
   Programs every data pin and measures the margins. `midMin` is how much the strobe delay is
   going to be reduced, `orig` how much it should have been.
   */
  method CenterPins(g: DelayGroup, left: seq<int>, right: seq<int>, minIndex: nat, orig: int, midMin: int)
    returns (dqMargin: int, dqsMargin: int)
    requires g.Valid() && |left| == |right| == g.bits && minIndex < g.bits
    requires g.dq == seq(g.bits, _ => 0)
    requires orig == Aim(Spread(left[minIndex], right[minIndex]))
    modifies g`dq
    ensures g.Valid()
    ensures forall i :: 0 <= i < g.bits ==>
      g.dq[i] == Clamp(Want(left[i], right[i], Spread(left[minIndex], right[minIndex]), midMin), 0, g.dqMax)
    ensures Reported(g, Positions(g.dq, -midMin), left, right, dqMargin, dqsMargin)
  {
    dqsMargin, dqMargin := g.dqMax + 1, g.dqMax + 1;
    for i := 0 to g.bits
      invariant g.Valid()
      invariant forall k :: i <= k < g.bits ==> g.dq[k] == 0
      invariant forall k :: 0 <= k < i ==>
        g.dq[k] == Clamp(Want(left[k], right[k], Spread(left[minIndex], right[minIndex]), midMin), 0, g.dqMax)
      invariant dqMargin <= g.dqMax + 1 && dqsMargin <= g.dqMax + 1
      invariant forall k :: 0 <= k < i ==> dqMargin <= left[k] - g.dq[k] - midMin
      invariant forall k :: 0 <= k < i ==> dqsMargin <= right[k] + g.dq[k] + midMin
      invariant dqMargin == g.dqMax + 1 || exists k :: 0 <= k < i && dqMargin == left[k] - g.dq[k] - midMin
      invariant dqsMargin == g.dqMax + 1 || exists k :: 0 <= k < i && dqsMargin == right[k] + g.dq[k] + midMin
    {
      var delay;
      delay, dqMargin, dqsMargin := CenterPin(g.dq[i], g.dqMax, left[i], right[i], left[minIndex], right[minIndex],
                                              orig, midMin, dqMargin, dqsMargin);
      g.dq := g.dq[i := delay];
    }
    MarginsOfPins(g.dq, left, right, midMin, g.dqMax + 1, dqMargin, dqsMargin);
  }

  /** One pin: shift it from where it is, stop at the ends of the chain, lower the margins if it is closer. */
  method CenterPin(dq: int, dqMax: int, left: int, right: int, leftMin: int, rightMin: int, orig: int, midMin: int,
                   dqMargin: int, dqsMargin: int)
    returns (delay: int, dqMargin': int, dqsMargin': int)
    requires dq == 0 && orig == Aim(Spread(leftMin, rightMin))
    ensures delay == Clamp(Want(left, right, Spread(leftMin, rightMin), midMin), 0, dqMax)
    ensures dqMargin' == Min(dqMargin, left - delay - midMin)
    ensures dqsMargin' == Min(dqsMargin, right + delay + midMin)
  {
    dqMargin', dqsMargin' := dqMargin, dqsMargin;
    var shift := CHalf(left - right - (leftMin - rightMin)) + (orig - midMin);
    if shift + dq > dqMax {
      shift := dqMax - dq;
    } else if shift + dq < 0 {
      shift := -dq;
    }
    delay := dq + shift;
    if left - shift + (-midMin) < dqMargin {
      dqMargin' := left - shift + (-midMin);
    }
    if right + shift - (-midMin) < dqsMargin {
      dqsMargin' := right + shift - (-midMin);
    }
  }

  /** The running minima over the pins are the margins. */
  lemma MarginsOfPins(dq: seq<int>, left: seq<int>, right: seq<int>, midMin: int, cap: int, dqMargin: int, dqsMargin: int)
    requires |left| == |right| == |dq| && dqMargin <= cap && dqsMargin <= cap
    requires forall k :: 0 <= k < |dq| ==> dqMargin <= left[k] - dq[k] - midMin
    requires forall k :: 0 <= k < |dq| ==> dqsMargin <= right[k] + dq[k] + midMin
    requires dqMargin == cap || exists k :: 0 <= k < |dq| && dqMargin == left[k] - dq[k] - midMin
    requires dqsMargin == cap || exists k :: 0 <= k < |dq| && dqsMargin == right[k] + dq[k] + midMin
    ensures IsMargin(dqMargin, cap, LeftMargins(Positions(dq, -midMin), left))
    ensures IsMargin(dqsMargin, cap, RightMargins(Positions(dq, -midMin), right))
  {
    var lm, rm := LeftMargins(Positions(dq, -midMin), left), RightMargins(Positions(dq, -midMin), right);
    assert forall k :: 0 <= k < |dq| ==> lm[k] == left[k] - dq[k] - midMin;
    assert forall k :: 0 <= k < |dq| ==> rm[k] == right[k] + dq[k] + midMin;
  }

  lemma MarginsDecide(g: DelayGroup, x: seq<int>, left: seq<int>, right: seq<int>, dqMargin: int, dqsMargin: int)
    requires 0 <= g.dqMax && |left| == |right| == |x|
    requires Reported(g, x, left, right, dqMargin, dqsMargin)
    ensures dqMargin >= 0 && dqsMargin >= 0 <==> Inside(x, left, right)
  {
    if dqMargin >= 0 && dqsMargin >= 0 {
      forall i | 0 <= i < |x| ensures -left[i] <= x[i] <= right[i] {
        assert dqMargin <= LeftMargins(x, left)[i] && dqsMargin <= RightMargins(x, right)[i];
      }
    }
  }

  /** The centering half of the read routine: choose the strobe delay, program the pins, move the strobe. */
  method MoveReadGroup(g: DelayGroup, start: int, left: seq<int>, right: seq<int>)
    returns (m: int, dqMargin: int, dqsMargin: int)
    requires g.Valid() && |left| == |right| == g.bits
    requires g.dq == seq(g.bits, _ => 0) && 0 <= start <= g.dqsMax
    modifies g
    ensures g.Valid()
    ensures Programmed(g, start, ReadStrobe(m, start, g.dqsMax), m, left, right)
    ensures Reported(g, Final(g, start), left, right, dqMargin, dqsMargin)
  {
    hide IsMinSpread, Want, ReadStrobe, Aim;
    var minIndex;
    m, minIndex := SmallestSpread(left, right);
    var orig, newDqs := ChooseStrobe(m, start, g.dqsMax);
    dqMargin, dqsMargin := CenterPins(g, left, right, minIndex, orig, start - newDqs);
    ghost var x := Positions(g.dq, -(start - newDqs));
    g.dqs := newDqs;
    assert Final(g, start) == x;
  }

  /** Where the strobe goes for a smallest spread m, and how far it was to go before the clamp. */
  method ChooseStrobe(m: int, start: int, dqsMax: int) returns (orig: int, newDqs: int)
    requires 0 <= start <= dqsMax
    ensures orig == Aim(m) && newDqs == ReadStrobe(m, start, dqsMax) && 0 <= newDqs <= dqsMax
  {
    var midMin := m;
    if midMin > 0 {
      midMin := midMin + 1;
    }
    midMin := CHalf(midMin);
    orig := midMin;
    newDqs := start - midMin;
    if newDqs > dqsMax {
      newDqs := dqsMax;
    } else if newDqs < 0 {
      newDqs := 0;
    }
  }

  /** Read centering of one group (with the read test, or after writes with the write test). */
  method ReadCenter(g: DelayGroup)
    returns (ok: bool, failing: nat, left: seq<int>, right: seq<int>, ghost m: int, dqMargin: int, dqsMargin: int,
             ghost cut: int, ghost stop: int)
    requires g.Valid()
    modifies g
    ensures g.Valid() && |left| == |right| == g.bits && failing <= g.bits
    ensures g.Charted(old(g.dqs), true, cut, stop, left, right)
    ensures forall i :: 0 <= i < g.bits ==> g.Swept(i, old(g.dqs), left[i], right[i])
    ensures forall i :: 0 <= i < failing ==> BothEdges(g, left[i], right[i])
    ensures failing < g.bits ==>
      && !BothEdges(g, left[failing], right[failing])
      && !ok && g.dqs == old(g.dqs) && g.dq == seq(g.bits, _ => 0)
    ensures failing == g.bits ==>
      && Programmed(g, old(g.dqs), ReadStrobe(m, old(g.dqs), g.dqsMax), m, left, right)
      && Reported(g, Final(g, old(g.dqs)), left, right, dqMargin, dqsMargin)
      && (ok <==> Inside(Final(g, old(g.dqs)), left, right))
      && (OrderedEdges(g, old(g.dqs), left, right) ==> (ok <==> CanReach(g, g.dqs - old(g.dqs), right)))
  {
    hide DelayGroup.Charted;
    var l, r := new int[g.bits], new int[g.bits];
    var start := g.dqs;
    cut, stop := g.ReadSweeps(l, r);
    left, right := l[..], r[..];
    failing := FirstMissing(g, left, right);
    if failing < g.bits {
      g.dqs := start;
      ok, m, dqMargin, dqsMargin := false, 0, 0, 0;
      return;
    }
    m, dqMargin, dqsMargin := MoveReadGroup(g, start, left, right);
    MarginsDecide(g, Final(g, start), left, right, dqMargin, dqsMargin);
    ok := dqMargin >= 0 && dqsMargin >= 0;
    if OrderedEdges(g, start, left, right) { ReadSuccessCondition(g, start, m, left, right); }
  }

  /**
   Write centering of the data pins of one group. The strobe is not centered in this
   configuration: it goes back to where it was, except when some bit has no window.
   */
  method WriteCenterPins(g: DelayGroup)
    returns (windows: bool, failing: nat, left: seq<int>, right: seq<int>, ghost m: int, dqMargin: int, dqsMargin: int,
             ghost cut: int, ghost stop: int)
    requires g.Valid()
    modifies g
    ensures g.Valid() && |left| == |right| == g.bits && failing <= g.bits
    ensures g.Charted(old(g.dqs), false, cut, stop, left, right)
    ensures forall i :: 0 <= i < g.bits ==> g.Swept(i, old(g.dqs), left[i], right[i])
    ensures forall i :: 0 <= i < failing ==> BothEdges(g, left[i], right[i])
    ensures windows <==> failing == g.bits
    ensures failing < g.bits ==>
      && !BothEdges(g, left[failing], right[failing])
      && g.dq == seq(g.bits, _ => 0) && g.dqs == g.StrobeAt(old(g.dqs), stop)
    ensures failing == g.bits ==>
      && Programmed(g, old(g.dqs), old(g.dqs), m, left, right)
      && Reported(g, Final(g, old(g.dqs)), left, right, dqMargin, dqsMargin)
      && (dqMargin >= 0 && dqsMargin >= 0 <==> Inside(Final(g, old(g.dqs)), left, right))
  {
    hide DelayGroup.Charted;
    var l, r := new int[g.bits], new int[g.bits];
    var start := g.dqs;
    cut, stop := g.WriteSweeps(l, r);
    left, right := l[..], r[..];
    failing := FirstMissing(g, left, right);
    if failing < g.bits {
      windows, m, dqMargin, dqsMargin := false, 0, 0, 0;
      return;
    }
    windows := true;
    m, dqMargin, dqsMargin := MoveWriteGroup(g, start, left, right);
    MarginsDecide(g, Final(g, start), left, right, dqMargin, dqsMargin);
  }

  method MoveWriteGroup(g: DelayGroup, start: int, left: seq<int>, right: seq<int>)
    returns (m: int, dqMargin: int, dqsMargin: int)
    requires g.Valid() && |left| == |right| == g.bits
    requires g.dq == seq(g.bits, _ => 0) && 0 <= start <= g.dqsMax
    modifies g
    ensures g.Valid()
    ensures Programmed(g, start, start, m, left, right)
    ensures Reported(g, Final(g, start), left, right, dqMargin, dqsMargin)
  {
    var minIndex;
    m, minIndex := SmallestSpread(left, right);
    var midMin := m;
    if midMin > 0 {
      midMin := midMin + 1;
    }
    midMin := CHalf(midMin);
    var orig := midMin;
    var newDqs := start;
    midMin := 0;
    dqMargin, dqsMargin := CenterPins(g, left, right, minIndex, orig, midMin);
    g.dqs := newDqs;
    assert Final(g, start) == Positions(g.dq, -midMin);
  }

  /**
   Two ordered windows on opposite sides cannot always be centered together. With 31-tap chains and the strobe
   entered at 0, pin 0 passes at positions 20 to 30 and pin 1 at -31 to -20: both windows are
   measured as they are, and centering misses one.
   */
  method OppositeWindowsAreMissed() returns (g: DelayGroup, ok: bool, ghost left: seq<int>, ghost right: seq<int>)
    ensures g.bits == 2 && g.dqMax == g.dqsMax == 31
    ensures forall k :: (g.eye(0, k) <==> 20 <= k <= 30) && (g.eye(1, k) <==> -31 <= k <= -20)
    ensures left == [-20, 31] && right == [30, -20] && !ok
  {
    hide DelayGroup.Charted;
    g := new DelayGroup(2, 31, 31, (i, k) => if i == 0 then 20 <= k <= 30 else -31 <= k <= -20, _ => false, 0);
    var failing, dqMargin, dqsMargin;
    ghost var m, cut, stop;
    ok, failing, left, right, m, dqMargin, dqsMargin, cut, stop := ReadCenter(g);
    MeasuredWindow(g, 0, 0, 20, 30, left[0], right[0]);
    MeasuredWindow(g, 1, 0, -31, -20, left[1], right[1]);
    assert failing == 2;
    var x := Final(g, 0);
    SpreadOfTwo(m, left, right);
    assert x[1] == -6;
  }

  /** The report for a bit that passes exactly from a to b, away from its entry setting. */
  lemma MeasuredWindow(g: DelayGroup, i: nat, start: int, a: int, b: int, left: int, right: int)
    requires g.dqMax == g.dqsMax == 31 && 0 <= start && -31 <= a <= b <= 31 - start && !(a <= 0 <= b)
    requires !g.retest(i) && forall x :: g.Pass(i, start, x) <==> a <= x <= b
    requires g.Swept(i, start, left, right)
    ensures left == -a && right == b
  {
    assert g.Pass(i, start, a) && g.Pass(i, start, b) && g.InRange(start, a) && g.InRange(start, b);
    assert g.Pass(i, start, -left) && g.Pass(i, start, right);
  }

  /**
   A window right of position 0 is measured by write centering and then missed. A single pin passes at strobe delays 10 to 20; the
   strobe is entered at 4, and stays there.
   */
  method RightWindowIsMissed()
    returns (g: DelayGroup, windows: bool, ghost left: seq<int>, ghost right: seq<int>, dqMargin: int, dqsMargin: int)
    ensures g.bits == 1 && g.dqMax == g.dqsMax == 31 && g.dqs == 4 && g.dq == [0]
    ensures forall k :: g.eye(0, k) <==> 10 <= k <= 20
    ensures windows && left == [-6] && right == [16] && (dqMargin < 0 || dqsMargin < 0)
  {
    hide DelayGroup.Charted, Reported;
    g := new DelayGroup(1, 31, 31, (i, k) => 10 <= k <= 20, _ => false, 4);
    var failing;
    ghost var m, cut, stop;
    windows, failing, left, right, m, dqMargin, dqsMargin, cut, stop := WriteCenterPins(g);
    MeasuredWindow(g, 0, 4, 6, 16, left[0], right[0]);
    assert failing == 1;
    assert m == Spread(left[0], right[0]);
    assert Final(g, 4)[0] == 0 - g.dq[0];
  }

  /**
   A bit that passes at strobe delays 1 to 20, and at its entry setting when that is tested the second time, is
   reported without a window.
   */
  method EmergingBitIsMissed() returns (g: DelayGroup, ok: bool, failing: nat)
    ensures g.bits == 1 && g.dqMax == g.dqsMax == 31 && g.retest(0)
    ensures forall k :: g.eye(0, k) <==> 1 <= k <= 20
    ensures !ok && failing == 0
  {
    hide DelayGroup.Charted;
    g := new DelayGroup(1, 31, 31, (i, k) => 1 <= k <= 20, _ => true, 0);
    var left, right, dqMargin, dqsMargin;
    ghost var m, cut, stop;
    ok, failing, left, right, m, dqMargin, dqsMargin, cut, stop := ReadCenter(g);
    g.MissingIffWindowless(0, 0, left[0], right[0]);
  }

  lemma SpreadOfTwo(m: int, left: seq<int>, right: seq<int>)
    requires left == [-20, 31] && right == [30, -20] && IsMinSpread(m, left, right)
    ensures m == -50
  {
    assert Spread(left[0], right[0]) == -50 && Spread(left[1], right[1]) == 51;
  }
}
