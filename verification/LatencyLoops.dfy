/**
 Two small searches of the calibration sequencer that are easy to get off by one: the read
 latency search, and the encoding of a delay into nested hardware loop counters.
 */
module LatencyLoops {

  // ---------------------------------------------------------------------------------------
  // Read latency
  // ---------------------------------------------------------------------------------------

  /** Latencies from low to start all pass, and low - 1 is either 0 or fails. */
  ghost predicate PassingRun(pass: nat -> bool, low: nat, start: nat)
  {
    && 1 <= low <= start
    && (forall n :: low <= n <= start ==> pass(n))
    && (low - 1 == 0 || !pass(low - 1))
  }

  /** There is at most one such run, so its lower end is a function of the test and the start. */
  lemma PassingRunIsUnique(pass: nat -> bool, low: nat, low': nat, start: nat)
    requires PassingRun(pass, low, start) && PassingRun(pass, low', start)
    ensures low == low'
  {
  }

  class ReadLatency {
    const pass: nat -> bool       // does the read test of all groups pass at this latency?
    var curr: nat                 // the latency the sequencer keeps
    var programmed: nat           // the latency the hardware uses

    constructor (pass: nat -> bool, curr: nat)
      ensures this.pass == pass && this.curr == curr
    {
      this.pass, this.curr, this.programmed := pass, curr, curr;
    }

    /**
     Lowers the latency while reads pass, then adds a safety margin. Memory configuration
     leaves a positive latency behind.
     */
    method CalibrateLfifo() returns (ok: bool, ghost low: nat)
      requires 0 < curr
      modifies this
      ensures ok <==> pass(old(curr))
      ensures ok ==> PassingRun(pass, low, old(curr)) && curr == programmed == low + 1
      ensures !ok ==> curr == programmed == old(curr)
    {
      var foundOne := false;
      var looping := true;
      while looping
        invariant 0 < curr || (!looping && foundOne)
        invariant curr <= old(curr)
        invariant foundOne <==> curr < old(curr)
        invariant forall n :: curr < n <= old(curr) ==> pass(n)
        invariant !looping && curr != 0 ==> !pass(curr) && programmed == curr
        decreases looping, curr
      {
        programmed := curr;
        if !pass(curr) {
          looping := false;
        } else {
          foundOne := true;
          curr := curr - 1;
          looping := curr > 0;
        }
      }
      low := curr + 1;
      if foundOne {
        curr := curr + 2;
        programmed := curr;
      }
      ok := foundOne;
    }
  }

  // ---------------------------------------------------------------------------------------
  // Idle loops
  // ---------------------------------------------------------------------------------------

  const U8 := 0x100
  const U16 := 0x1_0000
  const U32 := 0x1_0000_0000

  /** The least multiple of unit that is not below n. */
  function RoundedUp(n: nat, unit: nat): (r: nat)
    requires 0 < n && 0 < unit
    ensures n <= r < n + unit
  {
    assert (n - 1) / unit * unit + (n - 1) % unit == n - 1;
    ((n - 1) / unit + 1) * unit
  }

  /** How long the loops idle when they are asked for afi controller clocks. */
  function Idled(afi: nat): nat
  {
    if afi == 0 then 1 else if afi <= U8 then afi else RoundedUp(afi, if afi <= U16 then U8 else U16)
  }

  /** The two loop counters of the read/write manager, and the idle instructions executed. */
  class IdleLoops {
    var load0: nat                // inner count as loaded, 8 bits
    var load1: nat                // outer count as loaded, 8 bits
    var inner: nat                // idle instructions executed at the inner jump

    constructor ()
      ensures inner == 0 && load0 < U8 && load1 < U8
    {
      load0, load1, inner := 0, 0, 0;
    }

    /** Inner jump alone: test, then decrement. */
    method RunLoop1()
      modifies this`inner
      ensures inner == old(inner) + (load1 + 1)
    {
      var c1 := load1;
      inner := inner + 1;
      while c1 != 0
        invariant 0 <= c1 <= load1 && inner == old(inner) + 1 + (load1 - c1)
        decreases c1
      {
        c1 := c1 - 1;
        inner := inner + 1;
      }
    }

    /** Both jumps: the inner counter is reloaded each time its jump falls through. */
    method RunLoop2()
      modifies this`inner
      ensures inner == old(inner) + (load0 + 1) * (load1 + 1)
    {
      var c1, rounds := load1, 0;
      var looping := true;
      while looping
        invariant 0 <= c1 <= load1 && rounds == load1 - c1 + (if looping then 0 else 1)
        invariant !looping ==> c1 == 0
        invariant inner == old(inner) + (load0 + 1) * rounds
        decreases looping, c1
      {
        var c0 := load0;
        ghost var before := inner;
        inner := inner + 1;
        while c0 != 0
          invariant 0 <= c0 <= load0 && inner == before + 1 + (load0 - c0)
          decreases c0
        {
          c0 := c0 - 1;
          inner := inner + 1;
        }
        assert (load0 + 1) * (rounds + 1) == (load0 + 1) * rounds + load0 + 1;
        rounds := rounds + 1;
        if c1 != 0 {
          c1 := c1 - 1;
        } else {
          looping := false;
        }
      }
    }

    /** The counters loaded for this many controller clocks, and the loops they drive. */
    method IdleCycles(afi: nat)
      requires afi < U32
      modifies this
      ensures inner == old(inner) + Idled(afi)
      ensures load1 < U8 && (load0 < U8 || load0 == old(load0))
    {
      var inner', outer, cLoop;
      if afi == 0 {
        inner', outer, cLoop := 0, 0, 0;
      } else if afi <= 0x100 {
        inner', outer, cLoop := (afi - 1) % U8, 0, 0;
      } else if afi <= 0x10000 {
        inner', outer, cLoop := 0xff, ((afi - 1) / 0x100) % U8, 0;
      } else {
        inner', outer, cLoop := 0xff, 0xff, ((afi - 1) / 0x10000) % U16;
      }
      if afi <= 0x100 {
        load1 := inner';
        RunLoop1();
      } else {
        load0 := inner';
        load1 := outer;
        if afi <= 0x10000 {
          RunLoop2();
        } else {
          assert cLoop == (afi - 1) / 0x10000;
          var c, looping := cLoop, true;
          while looping
            invariant 0 <= c <= cLoop && load0 == load1 == 0xff
            invariant !looping ==> c == 0
            invariant inner == old(inner) + 0x10000 * (cLoop - c + if looping then 0 else 1)
            decreases looping, c
          {
            RunLoop2();
            if c != 0 {
              c := c - 1;
            } else {
              looping := false;
            }
          }
        }
      }
    }

    /**
     Waits for a number of memory clocks. `ratio` memory clocks make one AFI clock, one idle
     instruction takes one AFI clock.
     */
    method DelayForMemClocks(clocks: nat, ratio: nat)
      requires 0 < ratio && clocks + ratio - 1 < U32
      modifies this
      ensures var afi := (clocks + ratio - 1) / ratio;
              var waited := inner - old(inner);
              && clocks <= waited * ratio && waited == Idled(afi)
              && (afi == 0 ==> waited == 1)
              && (0 < afi <= U8 ==> waited == afi)
              && (U8 < afi <= U16 ==> 0 <= waited - afi < U8)
              && (U16 < afi ==> 0 <= waited - afi < U16)
      ensures load1 < U8 && (load0 < U8 || load0 == old(load0))
    {
      var afi := (clocks + ratio - 1) / ratio;
      FewerClocks(clocks, ratio);
      IdleCycles(afi);
      WaitedEnough(clocks, ratio, inner - old(inner));
    }
  }

  lemma EnoughClocks(clocks: nat, ratio: nat)
    requires 0 < ratio
    ensures clocks <= (clocks + ratio - 1) / ratio * ratio
  {
    var x := clocks + ratio - 1;
    var q, r := x / ratio, x % ratio;
    assert x == q * ratio + r;
  }

  lemma AtLeastOnce(q: int, ratio: nat)
    requires 0 < ratio && 0 <= q
    ensures q <= q * ratio
  {
  }

  /** At least the rounded-up number of controller clocks is enough memory clocks. */
  lemma WaitedEnough(clocks: nat, ratio: nat, waited: int)
    requires 0 < ratio && (clocks + ratio - 1) / ratio <= waited
    ensures clocks <= waited * ratio
  {
    EnoughClocks(clocks, ratio);
    MoreClocks((clocks + ratio - 1) / ratio, waited, ratio);
  }

  lemma FewerClocks(clocks: nat, ratio: nat)
    requires 0 < ratio
    ensures 0 <= (clocks + ratio - 1) / ratio <= clocks + ratio - 1
  {
    var x := clocks + ratio - 1;
    var q, r := x / ratio, x % ratio;
    assert x == q * ratio + r;
    AtLeastOnce(q, ratio);
  }

  lemma MoreClocks(afi: nat, waited: nat, ratio: nat)
    requires afi <= waited
    ensures afi * ratio <= waited * ratio
  {
  }
}
