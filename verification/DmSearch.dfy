/**
 Search for the data-mask window of a write group. The mask pin is delayed from the end of its
 chain down to zero, then the strobe is delayed instead; together the two phases walk the mask
 positions from `-max` up to `max - base`, where `base` is the centered strobe delay.
 */
module DmSearch {

  import opened IntegerArithmetic

  class MaskLine {
    const max: int                // last tap of an output delay chain
    const base: int               // strobe delay at which the mask is centered
    const eye: int -> bool        // does the masked write pass at strobe-minus-mask delay k?

    var dm: int                   // mask delay register
    var dqs: int                  // strobe delay register

    /** The mask pin at dm, the strobe at the delay the mask is to be centered at. */
    constructor (max: nat, base: nat, dm: nat, eye: int -> bool)
      requires base <= max && dm <= max
      ensures Valid() && this.max == max && this.base == base && this.eye == eye && this.dm == dm && dqs == base
    {
      this.max, this.base, this.eye := max, base, eye;
      this.dm, dqs := dm, base;
    }

    ghost predicate Valid()
      reads this
    {
      0 <= base <= max && 0 <= dm <= max && 0 <= dqs <= max
    }

    /** The masked write passes with the registers as they are. */
    predicate Passes()
      reads this
    {
      eye(dqs - dm)
    }

    predicate Pass(x: int) { eye(base + x) }

    predicate InRange(x: int) { -max <= x <= max - base }

    /** The masked write passes nowhere. */
    ghost predicate Blocked() { forall x :: InRange(x) ==> !Pass(x) }

    /** Every position from a to b is in range and passes. */
    ghost predicate Run(a: int, b: int)
    {
      a <= b && InRange(a) && InRange(b) && forall x :: a <= x <= b ==> Pass(x)
    }

    /** [a, b] is the first of the longest passing runs that end before position `limit`. */
    ghost predicate FirstLongest(a: int, b: int, limit: int)
    {
      && Run(a, b) && b < limit
      && forall c, d :: Run(c, d) && d < limit ==> d - c < b - a || (d - c == b - a && a <= c)
    }

    /** The search state after all positions below `next` have been tested. */
    ghost predicate Searched(next: int, bgnCurr: int, bgnBest: int, endBest: int, winBest: int)
    {
      && (if winBest == 0 then bgnBest == endBest == max + 1 && forall c, d :: Run(c, d) ==> next <= d
          else winBest == endBest - bgnBest + 1 && FirstLongest(bgnBest, endBest, next))
      && (if bgnCurr == max + 1 then next > -max ==> !Pass(next - 1)
          else Run(bgnCurr, next - 1) && !(InRange(bgnCurr - 1) && Pass(bgnCurr - 1)) && next - bgnCurr <= winBest)
    }

    /** The one pass-or-fail bookkeeping step both phases perform at position x. */
    lemma SearchStep(x: int, bgnCurr: int, bgnBest: int, endBest: int, winBest: int,
                     bgnCurr': int, bgnBest': int, endBest': int, winBest': int)
      requires Searched(x, bgnCurr, bgnBest, endBest, winBest) && InRange(x) && 0 <= base <= max && 0 <= winBest
      requires bgnCurr' == if !Pass(x) then max + 1 else if bgnCurr == max + 1 then x else bgnCurr
      requires var better := Pass(x) && x - bgnCurr' + 1 > winBest;
        && winBest' == (if better then x - bgnCurr' + 1 else winBest)
        && bgnBest' == (if better then bgnCurr' else bgnBest)
        && endBest' == (if better then x else endBest)
      ensures Searched(x + 1, bgnCurr', bgnBest', endBest', winBest')
    {
      if Pass(x) {
        assert Run(bgnCurr', x);
        assert x > -max ==> bgnCurr' <= x;
      }
    }

    /** Leaving the second phase early at a failing position changes nothing. */
    lemma EarlyExitLosesNothing(x: int, bgnBest: int, endBest: int, winBest: int)
      requires Searched(x + 1, max + 1, bgnBest, endBest, winBest) && InRange(x) && 0 <= winBest && 0 <= base <= max
      requires winBest - 1 > max - base - x && !Pass(x)
      ensures FirstLongest(bgnBest, endBest, max - base + 1)
    {
      forall c, d | Run(c, d) && d < max - base + 1
        ensures d - c < endBest - bgnBest || (d - c == endBest - bgnBest && bgnBest <= c)
      {
        assert x < d ==> x < c;
      }
    }

    /** With the mask delayed by d, the distances to both edges differ by at most one tap, or d is 0 and the left one is at most a tap longer. */
    predicate Balanced(d: int, left: int, right: int)
    {
      0 <= d && if d > 0 then 0 <= (left - d) - (right + d) <= 1 else left <= right + 1
    }

    /** The longest run of passing positions, first phase: the mask pin moves. */
    method SweepMask() returns (bgnCurr: int, endCurr: int, bgnBest: int, endBest: int, winBest: int)
      requires Valid() && dqs == base
      modifies this`dm
      ensures Valid() && 0 <= winBest
      ensures Searched(1, bgnCurr, bgnBest, endBest, winBest)
      ensures endCurr == if bgnCurr == max + 1 then max + 1 else 0
    {
      bgnCurr, endCurr, bgnBest, endBest, winBest := max + 1, max + 1, max + 1, max + 1, 0;
      var d := max;
      while d >= 0
        invariant Valid() && -1 <= d <= max && 0 <= winBest
        invariant Searched(-d, bgnCurr, bgnBest, endBest, winBest)
        invariant endCurr == if bgnCurr == max + 1 then max + 1 else -d - 1
      {
        ghost var b0, bb0, eb0, w0 := bgnCurr, bgnBest, endBest, winBest;
        dm := d;
        if Passes() {
          endCurr := -d;
          if bgnCurr == max + 1 {
            bgnCurr := -d;
          }
          if endCurr - bgnCurr + 1 > winBest {
            winBest := endCurr - bgnCurr + 1;
            bgnBest := bgnCurr;
            endBest := endCurr;
          }
        } else {
          bgnCurr := max + 1;
          endCurr := max + 1;
        }
        SearchStep(-d, b0, bb0, eb0, w0, bgnCurr, bgnBest, endBest, winBest);
        d := d - 1;
      }
    }

    /** Second phase: the strobe moves; position 0 is tested once more. */
    method SweepStrobe(bgn: int, end: int, bgnBest0: int, endBest0: int, winBest0: int)
      returns (bgnBest: int, endBest: int, winBest: int)
      requires Valid() && dm == 0 && dqs == base && 0 <= winBest0
      requires Searched(1, bgn, bgnBest0, endBest0, winBest0)
      requires end == if bgn == max + 1 then max + 1 else 0
      modifies this`dqs
      ensures Valid() && 0 <= winBest
      ensures if winBest == 0 then bgnBest == endBest == max + 1 && Blocked()
              else winBest == endBest - bgnBest + 1 && FirstLongest(bgnBest, endBest, max - base + 1)
    {
      var bgnCurr, endCurr := bgn, end;
      bgnBest, endBest, winBest := bgnBest0, endBest0, winBest0;
      if endCurr != 0 {
        bgnCurr := max + 1;
        endCurr := max + 1;
      }
      var d := 0;
      while d <= max - base
        invariant Valid() && 0 <= d <= max - base + 1 && 0 <= winBest
        invariant Searched(if d == 0 then 1 else d, bgnCurr, bgnBest, endBest, winBest)
        invariant endCurr == if bgnCurr == max + 1 then max + 1 else if d == 0 then 0 else d - 1
      {
        dqs := d + base;
        assert Passes() == Pass(d);
        var passed := Passes();
        bgnCurr, endCurr, bgnBest, endBest, winBest := StrobeStep(d, passed, bgnCurr, bgnBest, endBest, winBest);
        if !passed && winBest - 1 > max - base - d {
          EarlyExitLosesNothing(d, bgnBest, endBest, winBest);
          return;
        }
        d := d + 1;
      }
      forall x | InRange(x) ensures winBest == 0 ==> !Pass(x) {
        if winBest == 0 && Pass(x) { assert Run(x, x); }
      }
    }

    /** The bookkeeping of the second phase at position d; position 0 was recorded by the first phase already. */
    method StrobeStep(d: nat, passed: bool, bgn0: int, bgnBest0: int, endBest0: int, winBest0: int)
      returns (bgnCurr: int, endCurr: int, bgnBest: int, endBest: int, winBest: int)
      requires 0 <= base <= max && InRange(d) && 0 <= winBest0 && passed == Pass(d)
      requires Searched(if d == 0 then 1 else d, bgn0, bgnBest0, endBest0, winBest0)
      ensures 0 <= winBest && Searched(d + 1, bgnCurr, bgnBest, endBest, winBest)
      ensures endCurr == (if bgnCurr == max + 1 then max + 1 else d) && (!passed ==> bgnCurr == max + 1)
    {
      bgnCurr, bgnBest, endBest, winBest := bgn0, bgnBest0, endBest0, winBest0;
      if passed {
        endCurr := d;
        if bgnCurr == max + 1 {
          bgnCurr := d;
        }
        if endCurr - bgnCurr + 1 > winBest {
          winBest := endCurr - bgnCurr + 1;
          bgnBest := bgnCurr;
          endBest := endCurr;
        }
      } else {
        bgnCurr := max + 1;
        endCurr := max + 1;
      }
      if d > 0 { SearchStep(d, bgn0, bgnBest0, endBest0, winBest0, bgnCurr, bgnBest, endBest, winBest); }
    }

    /**
     Measures the mask window [-left, right], moves the mask pin to its centre (never below
     zero) and puts the strobe back.
     */
    method CenterMask() returns (dmMargin: int, left: int, right: int)
      requires Valid() && dqs == base
      modifies this
      ensures Valid() && dqs == base
      ensures Blocked() ==> left == -(max + 1) && right == max + 1 && dmMargin == -1 && dm == 0
      ensures !Blocked() ==>
        && FirstLongest(-left, right, max - base + 1)
        && dmMargin == left - dm
        && Balanced(dm, left, right)
      ensures dmMargin >= 0 <==> -left <= -dm <= right
      ensures dmMargin >= 0 <==> 0 <= left
      ensures dmMargin >= 0 ==> Passes()
    {
      var bgnCurr, endCurr, bgnBest, endBest, winBest := SweepMask();
      dm := 0;
      bgnBest, endBest, winBest := SweepStrobe(bgnCurr, endCurr, bgnBest, endBest, winBest);
      left, right := -1 * bgnBest, endBest;
      dqs := base;
      var mid := CHalf(left - right);
      if mid < 0 {
        mid := 0;
      }
      if winBest == 0 {
        dmMargin := -1;
      } else {
        dmMargin := left - mid;
        assert Run(bgnBest, endBest) && Pass(bgnBest);
      }
      dm := mid;
      assert Passes() == Pass(-dm);
    }
  }
}
