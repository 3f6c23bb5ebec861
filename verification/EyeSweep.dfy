/**
 Per-bit eye sweeps of the SDRAM calibration sequencer.

 A DQ bit samples correctly or not depending on how far its strobe is delayed relative to
 its own data pin.  The sweeps move first the data pins (left edge) and then the strobe
 (right edge) and remember, per bit, where the test last passed.

 Positions are relative to the strobe delay the routine was entered with: position `x` of a
 bit means `(dqs - start) - dq == x`.  Words of test results are sequences of booleans, bit 0
 first.
 */
module EyeSweep {

  /** One DQ/DQS group: its delay registers and the electrical eye they are tested against. */
  class DelayGroup {
    const bits: nat                    // DQ pins in the group
    const dqMax: int                   // last tap of a DQ delay chain
    const dqsMax: int                  // last tap of the DQS delay chain
    const eye: (nat, int) -> bool      // does bit i pass at strobe-minus-data delay k?
    const retest: nat -> bool          // does bit i pass when its entry setting is tested once more?

    var dq: seq<int>                   // DQ delay registers, one per pin
    var dqs: int                       // DQS delay register

    constructor (bits: nat, dqMax: nat, dqsMax: nat, eye: (nat, int) -> bool, retest: nat -> bool, dqs: nat)
      requires 0 < bits && dqsMax <= dqMax && dqs <= dqsMax
      ensures Valid() && this.bits == bits && this.dqMax == dqMax && this.dqsMax == dqsMax
      ensures this.eye == eye && this.retest == retest && this.dqs == dqs && dq == seq(bits, _ => 0)
    {
      this.bits, this.dqMax, this.dqsMax, this.eye := bits, dqMax, dqsMax, eye;
      this.retest := retest;
      this.dqs, this.dq := dqs, seq(bits, _ => 0);
    }

    /** The same registers under new circumstances: the eye is another, the delays are as they were. */
    constructor Facing(from: DelayGroup, eye: (nat, int) -> bool, retest: nat -> bool)
      requires from.Valid()
      ensures Valid() && bits == from.bits && dqMax == from.dqMax && dqsMax == from.dqsMax
      ensures this.eye == eye && this.retest == retest && dqs == from.dqs && dq == from.dq
    {
      bits, dqMax, dqsMax, this.eye, this.retest := from.bits, from.dqMax, from.dqsMax, eye, retest;
      dqs, dq := from.dqs, from.dq;
    }

    /** The tap limits of the shipped configuration are equal; only `dqsMax <= dqMax` is used. */
    ghost predicate Valid()
      reads this
    {
      && 0 < bits
      && 0 <= dqsMax <= dqMax
      && |dq| == bits
      && (forall i :: 0 <= i < bits ==> 0 <= dq[i] <= dqMax)
      && 0 <= dqs <= dqsMax
    }

    /** The value no edge can take, used for "not seen yet". */
    function Illegal(): int { dqMax + 1 }

    /** Does bit i pass at position x, for a sweep entered with strobe delay `start`? */
    predicate Pass(i: nat, start: int, x: int) { eye(i, start + x) }

    /** x is one of the positions the two sweeps can reach. */
    predicate InRange(start: int, x: int) { -dqMax <= x <= dqsMax - start }

    ghost predicate NoWindow(i: nat, start: int)
    {
      forall x :: InRange(start, x) ==> !Pass(i, start, x)
    }

    /** The passing positions of bit i have no gap. */
    ghost predicate Convex(i: nat, start: int)
    {
      forall x, y, z | InRange(start, x) && InRange(start, z) && x < y < z ::
        Pass(i, start, x) && Pass(i, start, z) ==> Pass(i, start, y)
    }

    /** left and right are passing positions, in range and in order. */
    ghost predicate Edges(i: nat, start: int, left: int, right: int)
    {
      && InRange(start, -left) && InRange(start, right) && -left <= right
      && Pass(i, start, -left) && Pass(i, start, right)
    }

    /** Inside the tested range, bit i passes exactly from -left to right. */
    ghost predicate ExactWindow(i: nat, start: int, left: int, right: int)
    {
      forall x :: InRange(start, x) ==> (Pass(i, start, x) <==> -left <= x <= right)
    }

    /** Position 0 is tested by both sweeps; a steady bit gives the same answer twice. */
    predicate Steady(i: nat, start: int) { retest(i) == Pass(i, start, 0) }

    /** A marginal bit that passed at position 0 in the left sweep and no longer does in the right one. */
    predicate Fading(i: nat, start: int) { Pass(i, start, 0) && !retest(i) }

    /** A fading bit keeps its left edge; its right edge is a later passing position or else -1. */
    ghost predicate FadingEdges(i: nat, start: int, left: int, right: int)
    {
      && 0 <= left <= dqMax && Pass(i, start, -left)
      && (right == -1 || (0 < right && InRange(start, right) && Pass(i, start, right)))
      && ((forall x :: 0 < x && InRange(start, x) ==> !Pass(i, start, x)) ==> right == -1)
    }

    /** The opposite: a bit that failed at position 0 in the left sweep and passes in the right one. */
    predicate Emerging(i: nat, start: int) { !Pass(i, start, 0) && retest(i) }

    /**
     An emerging bit has a left edge only if something left of position 0 passed; its right edge is a
     later passing position or else 0.
     */
    ghost predicate EmergingEdges(i: nat, start: int, left: int, right: int)
    {
      && (if left == Illegal() then NothingLeft(i, start) else 0 < left <= dqMax && Pass(i, start, -left))
      && (right == 0 || (0 < right && InRange(start, right) && Pass(i, start, right)))
      && ((forall x :: 0 < x && InRange(start, x) ==> !Pass(i, start, x)) ==> right == 0)
    }

    /** The left sweep passes nowhere. */
    ghost predicate NothingLeft(i: nat, start: int)
    {
      forall x :: -dqMax <= x <= 0 ==> !Pass(i, start, x)
    }

    /** The bits reported without a window: those that pass nowhere, and emerging ones that pass nowhere in the left sweep. */
    ghost predicate Windowless(i: nat, start: int)
    {
      (Steady(i, start) && NoWindow(i, start)) || (Emerging(i, start) && NothingLeft(i, start))
    }

    /**
     What a pair of sweeps entered with strobe delay `start` must report for bit i: a missing
     edge exactly when nothing passes, passing edges otherwise, and the exact window when the
     passing positions have no gap. A bit that is not steady is fading or emerging.
     */
    ghost predicate Swept(i: nat, start: int, left: int, right: int)
    {
      && (Steady(i, start) ==>
        && (NoWindow(i, start) <==> left == Illegal() || right == Illegal())
        && (!NoWindow(i, start) ==> Edges(i, start, left, right))
        && (!NoWindow(i, start) && Convex(i, start) ==> ExactWindow(i, start, left, right)))
      && (Fading(i, start) ==> FadingEdges(i, start, left, right))
      && (Emerging(i, start) ==> EmergingEdges(i, start, left, right))
    }

    /** Whatever the bit does, an edge is missing from the report exactly if the bit is windowless. */
    lemma MissingIffWindowless(i: nat, start: int, left: int, right: int)
      requires 0 <= start <= dqsMax <= dqMax && Swept(i, start, left, right)
      ensures left == Illegal() || right == Illegal() <==> Windowless(i, start)
    {
      assert Steady(i, start) || Fading(i, start) || Emerging(i, start);
    }

    /** For a steady bit without gaps the report is unique, so the read and the write sweep agree. */
    lemma SweepsAgree(i: nat, start: int, left: int, right: int, left': int, right': int)
      requires 0 <= start <= dqsMax <= dqMax && Steady(i, start) && Convex(i, start)
      requires Swept(i, start, left, right) && Swept(i, start, left', right')
      ensures (left == Illegal() || right == Illegal()) <==> (left' == Illegal() || right' == Illegal())
      ensures left != Illegal() && right != Illegal() ==> left == left' && right == right'
    {
      if !NoWindow(i, start) {
        assert Pass(i, start, -left) && Pass(i, start, right);
        assert Pass(i, start, -left') && Pass(i, start, right');
      }
    }

    /** One read or write test: the word of bits that came back correct. */
    method Test(again: bool) returns (chk: seq<bool>)
      requires Valid()
      ensures |chk| == bits
      ensures forall i :: 0 <= i < bits ==> chk[i] == if again then retest(i) else eye(i, dqs - dq[i])
    {
      chk := [];
      for i := 0 to bits
        invariant |chk| == i
        invariant forall k :: 0 <= k < i ==> chk[k] == if again then retest(k) else eye(k, dqs - dq[k])
      {
        chk := chk + [if again then retest(i) else eye(i, dqs - dq[i])];
      }
    }

    method ApplyGroupDqDelay(d: nat)
      requires Valid() && 0 <= d <= dqMax
      modifies this`dq
      ensures Valid() && dq == seq(bits, _ => d)
    {
      dq := seq(bits, _ => d);
    }

    /** Records one step of the left sweep. */
    method RecordLeft(chk: seq<bool>, d: nat, left: array<int>, right: array<int>)
      requires |chk| == bits == left.Length == right.Length && left != right
      modifies left, right
      ensures forall i :: 0 <= i < bits ==> left[i] == if chk[i] then d else old(left[i])
      ensures forall i :: 0 <= i < bits ==>
        right[i] == if !chk[i] && old(left[i]) == Illegal() then -(d + 1) else old(right[i])
    {
      for i := 0 to bits
        invariant forall k :: 0 <= k < i ==> left[k] == if chk[k] then d else old(left[k])
        invariant forall k :: 0 <= k < i ==>
          right[k] == if !chk[k] && old(left[k]) == Illegal() then -(d + 1) else old(right[k])
        invariant forall k :: i <= k < bits ==> left[k] == old(left[k]) && right[k] == old(right[k])
      {
        if chk[i] {
          left[i] := d;
        } else {
          if left[i] == Illegal() {
            right[i] := -(d + 1);
          }
        }
      }
    }

    /** Records one step of the right sweep; a bit that fails at once is marginal if its left edge is known. */
    method RecordRight(chk: seq<bool>, d: nat, left: array<int>, right: array<int>)
      requires |chk| == bits == left.Length == right.Length && left != right
      modifies left, right
      ensures forall i :: 0 <= i < bits ==>
        right[i] == if chk[i] then d
                    else if d == 0 && old(right[i]) == Illegal() && old(left[i]) != Illegal() then -1
                    else old(right[i])
      ensures forall i :: 0 <= i < bits ==>
        left[i] == if !chk[i] && old(right[i]) == Illegal() && (d != 0 || old(left[i]) == Illegal()) then -(d + 1)
                   else old(left[i])
    {
      for i := 0 to bits
        invariant forall k :: 0 <= k < i ==>
          right[k] == if chk[k] then d
                      else if d == 0 && old(right[k]) == Illegal() && old(left[k]) != Illegal() then -1
                      else old(right[k])
        invariant forall k :: 0 <= k < i ==>
          left[k] == if !chk[k] && old(right[k]) == Illegal() && (d != 0 || old(left[k]) == Illegal()) then -(d + 1)
                     else old(left[k])
        invariant forall k :: i <= k < bits ==> left[k] == old(left[k]) && right[k] == old(right[k])
      {
        if chk[i] {
          right[i] := d;
        } else {
          if d != 0 {
            if right[i] == Illegal() {
              left[i] := -(d + 1);
            }
          } else {
            if right[i] == Illegal() && left[i] != Illegal() {
              right[i] := -1;
            } else if right[i] == Illegal() {
              left[i] := -(d + 1);
            }
          }
        }
      }
    }

    /** What is known of bit i once data delays 0..d-1 have been recorded. */
    ghost predicate SeenLeft(i: nat, start: int, d: int, left: int, right: int)
    {
      if left == Illegal() then
        && right == (if d == 0 then Illegal() else -d)
        && (forall x :: -d < x <= 0 ==> !Pass(i, start, x))
      else
        && 0 <= left < d
        && Pass(i, start, -left)
        && (forall x :: -d < x < -left ==> !Pass(i, start, x))
        && if right == Illegal() then Pass(i, start, 0)
           else -left <= right < 0 && Pass(i, start, right) && forall x :: right < x <= 0 ==> !Pass(i, start, x)
    }

    /** What the left sweep hands over: `cut` is the first data delay left unrecorded. */
    ghost predicate LeftDone(i: nat, start: int, cut: int, left: int, right: int)
    {
      if left == Illegal() then
        && right == Illegal()
        && (forall x :: -dqMax <= x <= 0 ==> !Pass(i, start, x))
      else
        && SeenLeft(i, start, cut, left, right)
        && (cut <= dqMax ==> !Pass(i, start, -cut))
    }

    /** One test of the left sweep recorded. */
    method LeftStep(chk: seq<bool>, d: nat, left: array<int>, right: array<int>)
      requires Valid() && left.Length == bits == right.Length && left != right && |chk| == bits && d <= dqMax
      requires forall i :: 0 <= i < bits ==> chk[i] == Pass(i, dqs, 0 - d)
      requires forall i :: 0 <= i < bits ==> SeenLeft(i, dqs, d, left[i], right[i])
      modifies left, right
      ensures forall i :: 0 <= i < bits ==> SeenLeft(i, dqs, d + 1, left[i], right[i])
      ensures forall i :: 0 <= i < bits ==> (left[i] != Illegal() <==> old(left[i]) != Illegal() || chk[i])
    {
      ghost var l0, r0 := left[..], right[..];
      RecordLeft(chk, d, left, right);
      forall i | 0 <= i < bits ensures SeenLeft(i, dqs, d + 1, left[i], right[i]) {
        assert SeenLeft(i, dqs, d, l0[i], r0[i]);
      }
    }

    /** The stop flag of the left sweep in terms of the eye. */
    lemma LeftOverMeans(start: int, d: int, left: seq<int>, right: seq<int>, chk: seq<bool>, sticky: seq<bool>)
      requires |left| == |right| == |chk| == |sticky| == bits && 0 <= d <= dqMax
      requires forall i :: 0 <= i < bits ==> SeenLeft(i, start, d, left[i], right[i]) && (sticky[i] <==> left[i] != Illegal())
      requires forall i :: 0 <= i < bits ==> chk[i] == Pass(i, start, 0 - d)
      ensures LeftOver(start, d) <==> forall i :: 0 <= i < bits ==> !chk[i] && sticky[i]
    {
      forall i: nat | i < bits ensures sticky[i] <==> PassedLeft(i, start, d) {
        assert SeenLeft(i, start, d, left[i], right[i]);
        if sticky[i] { assert Pass(i, start, -left[i]); }
      }
      forall i: nat | i < bits ensures OverAt(i, start, d) <==> !chk[i] && sticky[i] {
      }
      if LeftOver(start, d) {
        forall i | 0 <= i < bits ensures !chk[i] && sticky[i] { assert OverAt(i, start, d); }
      }
    }

    /** Bit i had passed before, and fails at the delay where the sweep stopped. */
    ghost predicate StoppedAt(i: nat, start: int, cut: int, left: int)
    {
      left != Illegal() && !Pass(i, start, -cut)
    }

    /** Every bit fails at data delay d and has passed at a shorter one: there the left sweep stops. */
    ghost predicate LeftOver(start: int, d: int)
    {
      forall i: nat :: i < bits ==> OverAt(i, start, d)
    }

    ghost predicate OverAt(i: nat, start: int, d: int) { !Pass(i, start, -d) && PassedLeft(i, start, d) }

    /** Bit i passes at a data delay below d. */
    ghost predicate PassedLeft(i: nat, start: int, d: int) { exists x: int :: -d < x <= 0 && Pass(i, start, x) }

    ghost predicate CutAt(start: int, cut: int)
    {
      0 <= cut <= dqMax + 1 && (cut <= dqMax ==> LeftOver(start, cut)) && forall d :: 0 <= d < cut ==> !LeftOver(start, d)
    }

    /** Moves the data pins: the left edge, and the right edge of a window left of position 0. */
    method LeftSweep(left: array<int>, right: array<int>) returns (ghost cut: int)
      requires Valid() && left.Length == bits == right.Length && left != right
      requires forall i :: 0 <= i < bits ==> left[i] == right[i] == Illegal()
      modifies this`dq, left, right
      ensures Valid() && CutAt(dqs, cut)
      ensures forall i :: 0 <= i < bits ==> SeenLeft(i, dqs, cut, left[i], right[i])
      ensures cut <= dqMax ==> forall i :: 0 <= i < bits ==> StoppedAt(i, dqs, cut, left[i])
    {
      var sticky := seq(bits, _ => false);
      var d := 0;
      while d <= dqMax
        invariant Valid() && d <= dqMax + 1 && |sticky| == bits
        invariant forall k :: 0 <= k < d ==> !LeftOver(dqs, k)
        invariant forall i :: 0 <= i < bits ==> SeenLeft(i, dqs, d, left[i], right[i])
        invariant forall i :: 0 <= i < bits ==> (sticky[i] <==> left[i] != Illegal())
      {
        ApplyGroupDqDelay(d);
        var chk := Test(false);
        var stop := forall i | 0 <= i < bits :: !chk[i];
        ghost var sticky0 := sticky;
        sticky := seq(bits, i requires 0 <= i < bits => sticky[i] || chk[i]);
        stop := stop && forall i | 0 <= i < bits :: sticky[i];
        assert forall i :: 0 <= i < bits ==> chk[i] == Pass(i, dqs, 0 - d);
        LeftOverMeans(dqs, d, left[..], right[..], chk, sticky0);
        if stop {
          forall i | 0 <= i < bits ensures StoppedAt(i, dqs, d, left[i]) {
            assert sticky[i] && !chk[i];
          }
          return d;
        }
        LeftStep(chk, d, left, right);
        d := d + 1;
      }
      return d;
    }

    /** Drops right edges recorded for bits whose left edge never showed, and rebuilds the sticky word. */
    method ResetEdges(left: array<int>, right: array<int>, needBoth: bool) returns (sticky: seq<bool>)
      requires left.Length == bits == right.Length && left != right && 0 < bits
      modifies right
      ensures |sticky| == bits
      ensures forall i :: 0 <= i < bits ==>
        right[i] == if left[i] == Illegal() then Illegal() else old(right[i])
      ensures forall i :: 0 <= i < bits ==>
        (sticky[i] <==> left[i] != Illegal() && (needBoth ==> right[i] != Illegal()))
    {
      sticky := [];
      var i := bits;
      while i > 0
        invariant 0 <= i <= bits && |sticky| == bits - i
        invariant forall k :: i <= k < bits ==>
          right[k] == if left[k] == Illegal() then Illegal() else old(right[k])
        invariant forall k :: i <= k < bits ==>
          (sticky[k - i] <==> left[k] != Illegal() && (needBoth ==> right[k] != Illegal()))
        invariant forall k :: 0 <= k < i ==> right[k] == old(right[k])
      {
        i := i - 1;
        if left[i] == Illegal() && right[i] != Illegal() {
          right[i] := Illegal();
        }
        sticky := [left[i] != Illegal() && (needBoth ==> right[i] != Illegal())] + sticky;
      }
    }

    /** What is known of a steady bit once strobe shifts 0..d-1 have been recorded after the left sweep. */
    ghost predicate SeenRight(i: nat, start: int, cut: int, d: int, left: int, right: int)
    {
      if right == Illegal() then
        if 0 <= left <= dqMax then d == 0 && LeftDone(i, start, cut, left, right)
        else left == (if d == 0 then Illegal() else -d) && forall x :: -dqMax <= x < d || -dqMax <= x <= 0 ==> !Pass(i, start, x)
      else
        && -dqMax <= -left <= right && (d == 0 ==> right < 0) && (d > 0 ==> right < d)
        && Pass(i, start, -left) && Pass(i, start, right)
        && (forall x :: right < x < d || right < x <= 0 ==> !Pass(i, start, x))
        && if left < 0 then forall x :: -dqMax <= x < -left ==> !Pass(i, start, x)
           else left < cut && (forall x :: -cut < x < -left ==> !Pass(i, start, x))
                && (cut <= dqMax ==> !Pass(i, start, -cut))
    }

    /** The same for a fading bit. */
    ghost predicate SeenFading(i: nat, start: int, cut: int, d: int, left: int, right: int)
    {
      && 0 <= left < cut && left <= dqMax && Pass(i, start, -left) && (forall x :: -cut < x < -left ==> !Pass(i, start, x))
      && if d == 0 then right == Illegal()
         else
           && (right == -1 || (0 < right < d && Pass(i, start, right)))
           && forall x :: 0 < x && right < x < d ==> !Pass(i, start, x)
    }

    /** The same for an emerging bit. */
    ghost predicate SeenEmerging(i: nat, start: int, cut: int, d: int, left: int, right: int)
    {
      if d == 0 then LeftDone(i, start, cut, left, right) && left <= dqMax + 1
      else
        && (if left == Illegal() then NothingLeft(i, start)
            else 0 < left < cut && left <= dqMax && Pass(i, start, -left) && forall x :: -cut < x < -left ==> !Pass(i, start, x))
        && 0 <= right < d && (right == 0 || Pass(i, start, right)) && forall x :: right < x < d ==> !Pass(i, start, x)
    }

    /** The right-sweep invariants of one bit. */
    ghost predicate Seen(i: nat, start: int, cut: int, d: int, left: int, right: int)
    {
      && (Steady(i, start) ==> SeenRight(i, start, cut, d, left, right))
      && (Fading(i, start) ==> SeenFading(i, start, cut, d, left, right))
      && (Emerging(i, start) ==> SeenEmerging(i, start, cut, d, left, right))
    }

    lemma SeenStart(i: nat, start: int, cut: int, l: int, r: int, r': int)
      requires SeenLeft(i, start, cut, l, r) && 0 <= cut <= dqMax + 1 && 0 <= dqMax
      requires cut <= dqMax ==> StoppedAt(i, start, cut, l)
      requires r' == if l == Illegal() then Illegal() else r
      ensures Seen(i, start, cut, 0, l, r')
    {
      assert !Pass(i, start, 0) || l != Illegal() || cut == 0;
    }

    lemma SeenStep(i: nat, start: int, cut: int, d: int, chk: bool, l: int, r: int, l': int, r': int)
      requires Seen(i, start, cut, d, l, r) && 0 <= start && 0 <= d <= dqsMax - start && dqsMax <= dqMax
      requires chk == if d == 0 then retest(i) else Pass(i, start, d)
      requires r' == if chk then d else if d == 0 && r == Illegal() && l != Illegal() then -1 else r
      requires l' == if !chk && r == Illegal() && (d != 0 || l == Illegal()) then -(d + 1) else l
      ensures Seen(i, start, cut, d + 1, l', r')
    {
    }

    /** What the right sweep reads at strobe shift d: the entry setting once more, then the shifted ones. */
    predicate RightPass(i: nat, start: int, d: int) { if d == 0 then retest(i) else Pass(i, start, d) }

    /** A bit the right sweep need not wait for: its left edge is known, and if both are wanted, its right edge too. */
    ghost predicate LeftKnown(i: nat, start: int, cut: int, both: bool)
    {
      PassedLeft(i, start, cut) && (both ==> !Pass(i, start, 0))
    }

    /** Every bit fails at strobe shift d and is known or has passed before: there the right sweep stops. */
    ghost predicate RightOver(start: int, cut: int, both: bool, d: int)
    {
      forall i: nat :: i < bits ==>
        !RightPass(i, start, d) && (LeftKnown(i, start, cut, both) || PassedRight(i, start, d))
    }

    /** Bit i passes at a strobe shift below d. */
    ghost predicate PassedRight(i: nat, start: int, d: int) { exists x: int :: 0 <= x < d && RightPass(i, start, x) }

    ghost predicate StopAt(start: int, cut: int, both: bool, stop: int)
    {
      && 0 <= stop <= dqsMax - start + 1 && (stop <= dqsMax - start ==> RightOver(start, cut, both, stop))
      && forall d :: 0 <= d < stop ==> !RightOver(start, cut, both, d)
    }

    /** The strobe delay the right sweep ends at. */
    function StrobeAt(start: int, stop: int): int { if stop <= dqsMax - start then start + stop else dqsMax }

    /** What is recorded of bit i at the end; a write sweep that stops at once marks the bits that fail only now. */
    ghost predicate SeenLast(i: nat, start: int, both: bool, cut: int, stop: int, left: int, right: int)
    {
      if both || 0 < stop then Seen(i, start, cut, stop, left, right)
      else if left != Illegal() then
        right != Illegal() && (Seen(i, start, cut, 0, left, right) || (right == -1 && Seen(i, start, cut, 0, left, Illegal())))
      else Seen(i, start, cut, 0, left, right)
    }

    /** A pair of sweeps entered with strobe delay `start` recorded these edges. */
    ghost predicate Charted(start: int, both: bool, cut: int, stop: int, left: seq<int>, right: seq<int>)
    {
      && CutAt(start, cut) && StopAt(start, cut, both, stop) && |left| == |right| == bits
      && forall i: nat :: i < bits ==> SeenLast(i, start, both, cut, stop, left[i], right[i])
    }

    /** Where the sweeps stop, and every edge, is determined by what passes. */
    lemma ChartIsUnique(start: int, both: bool, cut: int, stop: int, left: seq<int>, right: seq<int>,
                        cut': int, stop': int, left': seq<int>, right': seq<int>)
      requires 0 <= start <= dqsMax <= dqMax && 0 < bits
      requires Charted(start, both, cut, stop, left, right) && Charted(start, both, cut', stop', left', right')
      ensures cut == cut' && stop == stop' && left == left' && right == right'
    {
      assert cut == cut';
      assert stop == stop';
      forall i: nat | i < bits ensures left[i] == left'[i] && right[i] == right'[i] {
        EdgesAreUnique(i, start, both, cut, stop, left[i], right[i], left'[i], right'[i]);
      }
    }

    lemma EdgesAreUnique(i: nat, start: int, both: bool, cut: int, stop: int, l: int, r: int, l': int, r': int)
      requires 0 <= start <= dqsMax <= dqMax && 0 <= cut <= dqMax + 1 && 0 <= stop <= dqsMax - start + 1
      requires SeenLast(i, start, both, cut, stop, l, r) && SeenLast(i, start, both, cut, stop, l', r')
      ensures l == l' && r == r'
    {
      if both || 0 < stop {
        SeenIsUnique(i, start, cut, stop, l, r, l', r');
      } else {
        SeenIsUnique(i, start, cut, stop, l, if Seen(i, start, cut, 0, l, r) then r else Illegal(),
                     l', if Seen(i, start, cut, 0, l', r') then r' else Illegal());
      }
    }

    lemma SeenIsUnique(i: nat, start: int, cut: int, d: int, l: int, r: int, l': int, r': int)
      requires 0 <= start <= dqsMax <= dqMax && 0 <= cut <= dqMax + 1 && 0 <= d <= dqsMax - start + 1
      requires Seen(i, start, cut, d, l, r) && Seen(i, start, cut, d, l', r')
      ensures l == l' && r == r'
    {
      assert Steady(i, start) || Fading(i, start) || Emerging(i, start);
    }

    /** The last recorded state of a bit is what the sweep had to report. */
    lemma SeenEnd(i: nat, start: int, cut: int, d: int, left: int, right: int)
      requires Seen(i, start, cut, d, left, right) && 0 <= start <= dqsMax <= dqMax && 0 <= d <= dqsMax - start + 1
      requires d <= dqsMax - start ==>
        right != Illegal() && !(if d == 0 then retest(i) else Pass(i, start, d))
      ensures Swept(i, start, left, right)
    {
      if Steady(i, start) && right != Illegal() && Convex(i, start) {
        forall x | InRange(start, x) ensures Pass(i, start, x) <==> -left <= x <= right {
          if x > right && x > d { assert Pass(i, start, x) ==> Pass(i, start, d); }
          if x < -left && 0 <= left && x < -cut { assert Pass(i, start, x) ==> Pass(i, start, -cut); }
        }
      }
    }

    /** One strobe shift of the right sweep: test, update the sticky word, decide whether to stop. */
    method RightTest(start: int, d: nat, sticky: seq<bool>) returns (chk: seq<bool>, sticky': seq<bool>, stop: bool)
      requires Valid() && 0 <= start && d <= dqsMax - start && |sticky| == bits && dq == seq(bits, _ => 0)
      modifies this`dqs
      ensures Valid() && dqs == d + start && |chk| == |sticky'| == bits
      ensures forall i :: 0 <= i < bits ==> chk[i] == if d == 0 then retest(i) else Pass(i, start, d)
      ensures forall i :: 0 <= i < bits ==> sticky'[i] == (sticky[i] || chk[i])
      ensures stop <==> forall i :: 0 <= i < bits ==> !chk[i] && sticky'[i]
    {
      dqs := d + start;
      chk := Test(d == 0);
      stop := forall i | 0 <= i < bits :: !chk[i];
      sticky' := seq(bits, i requires 0 <= i < bits => sticky[i] || chk[i]);
      stop := stop && forall i | 0 <= i < bits :: sticky'[i];
    }

    /** One recorded strobe shift, seen through the per-bit invariant. */
    method RightRecord(start: int, ghost cut: int, d: nat, chk: seq<bool>, left: array<int>, right: array<int>)
      requires |chk| == bits == left.Length == right.Length && left != right
      requires 0 <= start && d <= dqsMax - start && dqsMax <= dqMax
      requires forall i :: 0 <= i < bits ==> Seen(i, start, cut, d, left[i], right[i])
      requires forall i :: 0 <= i < bits ==> chk[i] == if d == 0 then retest(i) else Pass(i, start, d)
      modifies left, right
      ensures forall i :: 0 <= i < bits ==> Seen(i, start, cut, d + 1, left[i], right[i])
      ensures forall i :: 0 <= i < bits && (chk[i] || old(right[i]) != Illegal() || (d == 0 && old(left[i]) != Illegal())) ==>
        right[i] != Illegal()
    {
      ghost var l, r := left[..], right[..];
      RecordRight(chk, d, left, right);
      forall i | 0 <= i < bits ensures Seen(i, start, cut, d + 1, left[i], right[i]) {
        SeenStep(i, start, cut, d, chk[i], l[i], r[i], left[i], right[i]);
      }
    }

    /** What the sticky word starts from, in terms of the eye. */
    lemma KnownMeans(i: nat, start: int, cut: int, both: bool, l: int, r: int)
      requires SeenLeft(i, start, cut, l, r) && 0 < cut <= dqMax + 1 && 0 <= dqMax
      ensures LeftKnown(i, start, cut, both) <==> l != Illegal() && (both ==> r != Illegal())
    {
      if l != Illegal() { assert Pass(i, start, -l); }
    }

    /** The stop flag of the right sweep in terms of the eye; what is sticky afterwards. */
    lemma RightOverMeans(start: int, cut: int, both: bool, d: int, chk: seq<bool>, sticky: seq<bool>, sticky': seq<bool>)
      requires |chk| == |sticky| == |sticky'| == bits && 0 <= d
      requires forall i :: 0 <= i < bits ==> chk[i] == RightPass(i, start, d) && sticky'[i] == (sticky[i] || chk[i])
      requires forall i :: 0 <= i < bits ==> (sticky[i] <==> LeftKnown(i, start, cut, both) || PassedRight(i, start, d))
      ensures RightOver(start, cut, both, d) <==> forall i :: 0 <= i < bits ==> !chk[i] && sticky'[i]
      ensures forall i :: 0 <= i < bits ==> (sticky'[i] <==> LeftKnown(i, start, cut, both) || PassedRight(i, start, d + 1))
    {
      forall i: nat | i < bits ensures PassedRight(i, start, d + 1) <==> PassedRight(i, start, d) || chk[i] {
        if chk[i] { assert RightPass(i, start, d); }
      }
      if RightOver(start, cut, both, d) {
        forall i | 0 <= i < bits ensures !chk[i] && sticky'[i] { assert chk[i] == RightPass(i, start, d); }
      }
    }

    /** The left sweep cannot stop at its first test. */
    lemma CutIsPositive(start: int, cut: int)
      requires 0 < bits && 0 <= dqMax && CutAt(start, cut)
      ensures 0 < cut
    {
      if cut <= dqMax { assert OverAt(0, start, cut); }
    }

    /** Everything up to the right sweep: illegal edges, left sweep, reset. */
    method BeginSweeps(left: array<int>, right: array<int>, needBoth: bool) returns (sticky: seq<bool>, ghost cut: int)
      requires Valid() && left.Length == bits == right.Length && left != right
      modifies this`dq, left, right
      ensures Valid() && dq == seq(bits, _ => 0) && |sticky| == bits && CutAt(dqs, cut)
      ensures forall i :: 0 <= i < bits ==> Seen(i, dqs, cut, 0, left[i], right[i])
      ensures forall i :: 0 <= i < bits ==> (sticky[i] <==> LeftKnown(i, dqs, cut, needBoth))
      ensures forall i :: 0 <= i < bits && sticky[i] ==> left[i] != Illegal() && (needBoth ==> right[i] != Illegal())
    {
      for i := 0 to bits
        invariant Valid()
        invariant forall k :: 0 <= k < i ==> left[k] == right[k] == Illegal()
      {
        left[i] := Illegal();
        right[i] := Illegal();
      }
      cut := LeftSweep(left, right);
      ApplyGroupDqDelay(0);
      ghost var r0 := right[..];
      sticky := ResetEdges(left, right, needBoth);
      forall i | 0 <= i < bits ensures Seen(i, dqs, cut, 0, left[i], right[i]) {
        SeenStart(i, dqs, cut, left[i], r0[i], right[i]);
      }
      CutIsPositive(dqs, cut);
      forall i | 0 <= i < bits ensures sticky[i] <==> LeftKnown(i, dqs, cut, needBoth) {
        KnownMeans(i, dqs, cut, needBoth, left[i], r0[i]);
      }
    }

    /** Both sweeps of read calibration: a bit is sticky once both its edges are known. */
    method ReadSweeps(left: array<int>, right: array<int>) returns (ghost cut: int, ghost stop: int)
      requires Valid() && left.Length == bits == right.Length && left != right
      modifies this, left, right
      ensures Valid() && dq == seq(bits, _ => 0)
      ensures Charted(old(dqs), true, cut, stop, left[..], right[..]) && dqs == StrobeAt(old(dqs), stop)
      ensures forall i :: 0 <= i < bits ==> Swept(i, old(dqs), left[i], right[i])
    {
      hide LeftKnown, CutAt, RightOver, Swept, Seen;
      var start := dqs;
      var sticky;
      sticky, cut := BeginSweeps(left, right, true);
      var d := 0;
      while d <= dqsMax - start
        invariant Valid() && d <= dqsMax - start + 1 && |sticky| == bits && dq == seq(bits, _ => 0)
        invariant d == 0 || dqs == start + d - 1
        invariant CutAt(start, cut) && forall k :: 0 <= k < d ==> !RightOver(start, cut, true, k)
        invariant forall i :: 0 <= i < bits ==> (sticky[i] <==> LeftKnown(i, start, cut, true) || PassedRight(i, start, d))
        invariant forall i :: 0 <= i < bits ==> Seen(i, start, cut, d, left[i], right[i])
        invariant forall i :: 0 <= i < bits && sticky[i] ==> right[i] != Illegal()
      {
        var chk, over;
        ghost var sticky0 := sticky;
        chk, sticky, over := RightTest(start, d, sticky);
        RightOverMeans(start, cut, true, d, chk, sticky0, sticky);
        if over {
          break;
        }
        RightRecord(start, cut, d, chk, left, right);
        d := d + 1;
      }
      stop := d;
      forall i | 0 <= i < bits ensures Swept(i, start, left[i], right[i]) {
        SeenEnd(i, start, cut, d, left[i], right[i]);
      }
    }

    /** A bit that fails the retest which ends the right sweep at once. */
    lemma SeenStopAtZero(i: nat, start: int, cut: int, left: int, right: int, right': int)
      requires Seen(i, start, cut, 0, left, right) && 0 <= start <= dqsMax <= dqMax
      requires !retest(i) && (left != Illegal() || right != Illegal())
      requires right' == if right == Illegal() && left != Illegal() then -1 else right
      ensures Swept(i, start, left, right')
    {
      if right != Illegal() {
        SeenEnd(i, start, cut, 0, left, right);
      }
    }

    /** Position 0 failed although it passed in the left sweep: such a bit gets right edge -1. */
    method MarkMarginal(left: array<int>, right: array<int>)
      requires left.Length == bits == right.Length && left != right
      modifies right
      ensures forall i :: 0 <= i < bits ==>
        right[i] == if old(right[i]) == Illegal() && left[i] != Illegal() then -1 else old(right[i])
    {
      for i := 0 to bits
        invariant forall k :: 0 <= k < i ==>
          right[k] == if old(right[k]) == Illegal() && left[k] != Illegal() then -1 else old(right[k])
        invariant forall k :: i <= k < bits ==> right[k] == old(right[k])
      {
        if right[i] == Illegal() && left[i] != Illegal() {
          right[i] := -1;
        }
      }
    }

    /** Both sweeps of write calibration: a bit is sticky as soon as its left edge is known. */
    method WriteSweeps(left: array<int>, right: array<int>) returns (ghost cut: int, ghost stop: int)
      requires Valid() && left.Length == bits == right.Length && left != right
      modifies this, left, right
      ensures Valid() && dq == seq(bits, _ => 0)
      ensures Charted(old(dqs), false, cut, stop, left[..], right[..]) && dqs == StrobeAt(old(dqs), stop)
      ensures forall i :: 0 <= i < bits ==> Swept(i, old(dqs), left[i], right[i])
    {
      hide LeftKnown, CutAt, RightOver, Swept, Seen;
      var start := dqs;
      var sticky;
      sticky, cut := BeginSweeps(left, right, false);
      var d := 0;
      while d <= dqsMax - start
        invariant Valid() && d <= dqsMax - start + 1 && |sticky| == bits && dq == seq(bits, _ => 0)
        invariant d == 0 || dqs == start + d - 1
        invariant CutAt(start, cut) && forall k :: 0 <= k < d ==> !RightOver(start, cut, false, k)
        invariant forall i :: 0 <= i < bits ==> (sticky[i] <==> LeftKnown(i, start, cut, false) || PassedRight(i, start, d))
        invariant forall i :: 0 <= i < bits ==> Seen(i, start, cut, d, left[i], right[i])
        invariant forall i :: 0 <= i < bits && sticky[i] ==> right[i] != Illegal() || (d == 0 && left[i] != Illegal())
      {
        var chk, over;
        ghost var sticky0 := sticky;
        chk, sticky, over := RightTest(start, d, sticky);
        RightOverMeans(start, cut, false, d, chk, sticky0, sticky);
        if over {
          stop := d;
          if d == 0 {
            ghost var r := right[..];
            MarkMarginal(left, right);
            forall i | 0 <= i < bits ensures Swept(i, start, left[i], right[i]) {
              assert sticky[i] && !chk[i];
              SeenStopAtZero(i, start, cut, left[i], r[i], right[i]);
            }
            return;
          }
          break;
        }
        RightRecord(start, cut, d, chk, left, right);
        d := d + 1;
      }
      stop := d;
      forall i | 0 <= i < bits ensures Swept(i, start, left[i], right[i]) {
        SeenEnd(i, start, cut, d, left[i], right[i]);
      }
    }
  }
}
