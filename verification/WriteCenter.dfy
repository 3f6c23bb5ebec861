/** Write centering of one group: its data pins first, then its mask pin at the same strobe delay. */
module WriteCenter {
  import opened EyeSweep
  import opened EyeCentering
  import opened DmSearch

  /**
   The whole write routine. Once every pin has shown a window, success means that every pin and
   the mask sit inside their windows; with windows in order that is the case exactly when none
   of the measured windows, the mask's included, lies wholly to the right of position 0.
   */
  method WritesCenter(g: DelayGroup, mask: MaskLine)
    returns (ok: bool, failing: nat, left: seq<int>, right: seq<int>, ghost m: int, ghost dmLeft: int, ghost dmRight: int,
             ghost cut: int, ghost stop: int)
    requires g.Valid() && mask.Valid() && g.dqs == mask.dqs == mask.base
    modifies g, mask
    ensures g.Valid() && mask.Valid() && mask.dqs == old(g.dqs) && |left| == |right| == g.bits && failing <= g.bits
    ensures g.Charted(old(g.dqs), false, cut, stop, left, right)
    ensures forall i :: 0 <= i < g.bits ==> g.Swept(i, old(g.dqs), left[i], right[i])
    ensures failing < g.bits ==>
      && !ok && !BothEdges(g, left[failing], right[failing]) && mask.dm == old(mask.dm)
      && g.dq == seq(g.bits, _ => 0) && g.dqs == g.StrobeAt(old(g.dqs), stop)
    ensures forall i :: 0 <= i < failing ==> BothEdges(g, left[i], right[i])
    ensures failing == g.bits ==>
      && Programmed(g, old(g.dqs), old(g.dqs), m, left, right)
      && (if mask.Blocked() then mask.dm == 0 else mask.Balanced(mask.dm, dmLeft, dmRight))
      && (ok <==> Inside(Final(g, old(g.dqs)), left, right) && 0 <= dmLeft)
      && (ok ==> mask.Passes())
      && (OrderedEdges(g, old(g.dqs), left, right) ==>
           (ok <==> 0 <= dmLeft && forall i :: 0 <= i < g.bits ==> 0 <= left[i]))
      && (if mask.Blocked() then dmLeft < 0 else mask.FirstLongest(-dmLeft, dmRight, mask.max - mask.base + 1))
  {
    hide DelayGroup.Charted;
    ghost var start := g.dqs;
    var windows, dqMargin, dqsMargin, dmMargin, l, r;
    windows, failing, left, right, m, dqMargin, dqsMargin, cut, stop := WriteCenterPins(g);
    dmLeft, dmRight := -1, 0;
    if !windows {
      ok := false;
      return;
    }
    ghost var x := Final(g, start);
    PinsOutcome(g, start, m, left, right);
    dmMargin, l, r := mask.CenterMask();
    dmLeft, dmRight := l, r;
    assert Final(g, start) == x;
    ok := dqMargin >= 0 && dqsMargin >= 0 && dmMargin >= 0;
  }

  lemma PinsOutcome(g: DelayGroup, start: int, m: int, left: seq<int>, right: seq<int>)
    requires g.Valid() && 0 <= start <= g.dqsMax && |left| == |right| == g.bits
    requires Programmed(g, start, start, m, left, right)
    ensures OrderedEdges(g, start, left, right) ==>
      (Inside(Final(g, start), left, right) <==> forall i :: 0 <= i < g.bits ==> 0 <= left[i])
  {
    if OrderedEdges(g, start, left, right) {
      WriteSuccessCondition(g, start, m, left, right);
    }
  }
}
