/**
 The loopback stage of the stream test: one register between an Avalon streaming sink and source with
 backpressure and ready latency 0 (Avalon Interface Specifications, chapter 5). It takes a beat when its
 register is empty or is being emptied in the same cycle.
 */
module StreamStage {
  datatype Beat = Beat(data: int, channel: int, error: int)

  const NoBeat := Beat(0, 0, 0)

  /** One cycle's inputs: what the upstream side offers and whether the downstream side is ready. */
  datatype Inputs = Inputs(valid: bool, beat: Beat, ready: bool)

  /** The registers of the stage. */
  datatype Stage = Stage(valid: bool, beat: Beat)
  {
    /** Ready to take: the downstream side is, or nothing is held. */
    predicate Ready(i: Inputs) { i.ready || !valid }

    function Held(): seq<Beat> { if valid then [beat] else [] }

    function Accepted(i: Inputs): seq<Beat> { if Ready(i) && i.valid then [i.beat] else [] }

    function Delivered(i: Inputs): seq<Beat> { if valid && i.ready then [beat] else [] }

    /** One rising edge. */
    function Step(i: Inputs): Stage { if Ready(i) then Stage(i.valid, i.beat) else this }
  }

  const Reset := Stage(false, NoBeat)

  function After(s: Stage, inputs: seq<Inputs>): Stage
    decreases |inputs|
  {
    if inputs == [] then s else After(s.Step(inputs[0]), inputs[1..])
  }

  function AllAccepted(s: Stage, inputs: seq<Inputs>): seq<Beat>
    decreases |inputs|
  {
    if inputs == [] then [] else s.Accepted(inputs[0]) + AllAccepted(s.Step(inputs[0]), inputs[1..])
  }

  function AllDelivered(s: Stage, inputs: seq<Inputs>): seq<Beat>
    decreases |inputs|
  {
    if inputs == [] then [] else s.Delivered(inputs[0]) + AllDelivered(s.Step(inputs[0]), inputs[1..])
  }

  /** In every run the beats that came in are the beats that went out and the one that is held. */
  lemma {:induction false} NothingLost(s: Stage, inputs: seq<Inputs>)
    ensures s.Held() + AllAccepted(s, inputs) == AllDelivered(s, inputs) + After(s, inputs).Held()
    decreases |inputs|
  {
    if inputs != [] {
      var i, t := inputs[0], s.Step(inputs[0]);
      NothingLost(t, inputs[1..]);
      assert s.Held() + s.Accepted(i) == s.Delivered(i) + t.Held();
      var rest := AllAccepted(t, inputs[1..]);
      calc {
        s.Held() + (s.Accepted(i) + rest);
        (s.Held() + s.Accepted(i)) + rest;
        s.Delivered(i) + (t.Held() + rest);
        s.Delivered(i) + (AllDelivered(t, inputs[1..]) + After(s, inputs).Held());
        AllDelivered(s, inputs) + After(s, inputs).Held();
      }
    }
  }

  /** Since reset: accepted is delivered followed by at most one held beat. */
  lemma SinceReset(inputs: seq<Inputs>)
    ensures AllAccepted(Reset, inputs) == AllDelivered(Reset, inputs) + After(Reset, inputs).Held()
    ensures |AllDelivered(Reset, inputs)| <= |AllAccepted(Reset, inputs)| <= |AllDelivered(Reset, inputs)| + 1
  {
    NothingLost(Reset, inputs);
    assert Reset.Held() + AllAccepted(Reset, inputs) == AllAccepted(Reset, inputs);
  }

  /** A beat that is offered and not taken stays as it is for as long as it is not taken. */
  lemma {:induction false} StalledIsStable(s: Stage, inputs: seq<Inputs>)
    requires s.valid && forall k :: 0 <= k < |inputs| ==> !inputs[k].ready
    ensures After(s, inputs) == s && AllAccepted(s, inputs) == []
    decreases |inputs|
  {
    if inputs != [] { StalledIsStable(s, inputs[1..]); }
  }

  /** The first beat offered, if any. */
  function FirstOffer(inputs: seq<Inputs>): seq<Beat>
    decreases |inputs|
  {
    if inputs == [] then [] else if inputs[0].valid then [inputs[0].beat] else FirstOffer(inputs[1..])
  }

  /** From an empty stage to a side that is never ready: the first beat offered is taken all the same, and no second one. */
  lemma {:induction false} ClosedSideTakesOne(s: Stage, inputs: seq<Inputs>)
    requires !s.valid && forall k :: 0 <= k < |inputs| ==> !inputs[k].ready
    ensures AllAccepted(s, inputs) == FirstOffer(inputs) == After(s, inputs).Held() && AllDelivered(s, inputs) == []
    decreases |inputs|
  {
    if inputs != [] {
      var t := s.Step(inputs[0]);
      if inputs[0].valid {
        StalledIsStable(t, inputs[1..]);
        NothingLost(s, inputs);
      } else {
        ClosedSideTakesOne(t, inputs[1..]);
      }
    }
  }

  // ---- Between a producer that keeps its offers up and any consumer ----

  /** One cycle of the environment: does the producer offer its next beat, is the consumer ready. */
  datatype Cycle = Cycle(offer: bool, ready: bool)

  /** The producer's offer: its next beat, or anything at all marked invalid. */
  function Offer(queue: seq<Beat>, c: Cycle): Inputs
  {
    if c.offer && queue != [] then Inputs(true, queue[0], c.ready) else Inputs(false, NoBeat, c.ready)
  }

  /** The producer's queue after the cycle: it moves on only when the stage was ready. */
  function Left(s: Stage, queue: seq<Beat>, c: Cycle): seq<Beat> { queue[|s.Accepted(Offer(queue, c))|..] }

  /** Delivered beats, final stage and final queue of a run against a queue of beats. */
  function Run(s: Stage, queue: seq<Beat>, cycles: seq<Cycle>): (seq<Beat>, Stage, seq<Beat>)
    decreases |cycles|
  {
    if cycles == [] then ([], s, queue)
    else
      var i := Offer(queue, cycles[0]);
      var r := Run(s.Step(i), Left(s, queue, cycles[0]), cycles[1..]);
      (s.Delivered(i) + r.0, r.1, r.2)
  }

  /** Cycles in which both sides are willing. */
  function Willing(cycles: seq<Cycle>): nat
    decreases |cycles|
  {
    if cycles == [] then 0 else (if cycles[0].offer && cycles[0].ready then 1 else 0) + Willing(cycles[1..])
  }

  /** One cycle against a queue: the beat that crosses from the queue and the one that leaves. */
  lemma CycleKeeps(s: Stage, queue: seq<Beat>, c: Cycle)
    ensures var i := Offer(queue, c);
      s.Held() + queue == s.Delivered(i) + s.Step(i).Held() + Left(s, queue, c)
  {
    assert s.Accepted(Offer(queue, c)) + Left(s, queue, c) == queue;
  }

  /** The queue crosses the stage in order: delivered, held and not yet taken make it up. */
  lemma {:induction false} QueueCrosses(s: Stage, queue: seq<Beat>, cycles: seq<Cycle>)
    ensures var r := Run(s, queue, cycles); s.Held() + queue == r.0 + r.1.Held() + r.2
    decreases |cycles|
  {
    if cycles != [] {
      var i := Offer(queue, cycles[0]);
      var t, left := s.Step(i), Left(s, queue, cycles[0]);
      CycleKeeps(s, queue, cycles[0]);
      QueueCrosses(t, left, cycles[1..]);
      var r := Run(t, left, cycles[1..]);
      Regroup(s.Delivered(i), t.Held(), left, r.0, r.1.Held(), r.2);
    }
  }

  lemma Regroup(d: seq<Beat>, held: seq<Beat>, left: seq<Beat>, d': seq<Beat>, held': seq<Beat>, left': seq<Beat>)
    requires held + left == d' + held' + left'
    ensures d + held + left == (d + d') + held' + left'
  {
    assert d + held + left == d + (held + left);
    assert d + (d' + held' + left') == (d + d') + held' + left';
  }

  /** One willing cycle more than there are beats empties the queue and the stage. */
  lemma {:induction false} WillingCyclesDrain(s: Stage, queue: seq<Beat>, cycles: seq<Cycle>)
    requires |queue| < Willing(cycles) || (queue == [] && !s.valid)
    ensures var r := Run(s, queue, cycles); r.2 == [] && !r.1.valid
    decreases |cycles|
  {
    if cycles != [] {
      WillingCyclesDrain(s.Step(Offer(queue, cycles[0])), Left(s, queue, cycles[0]), cycles[1..]);
    }
  }

  /** So one willing cycle more than there are beats delivers all of them, once and in order. */
  lemma EverythingArrives(queue: seq<Beat>, cycles: seq<Cycle>)
    requires |queue| < Willing(cycles)
    ensures Run(Reset, queue, cycles).0 == queue
  {
    QueueCrosses(Reset, queue, cycles);
    WillingCyclesDrain(Reset, queue, cycles);
    var r := Run(Reset, queue, cycles);
    assert Reset.Held() + queue == queue;
    assert r.0 + r.1.Held() + r.2 == r.0;
  }

  /** The registers of the entity, changed on every rising edge. */
  class StageRegisters {
    var valid: bool
    var beat: Beat

    function Now(): Stage
      reads this
    {
      Stage(valid, beat)
    }

    /** Reset clears every register. */
    constructor ()
      ensures Now() == Reset
    {
      valid, beat := false, NoBeat;
    }

    /** One rising edge; the results are the signals the two sides see in the cycle before it. */
    method Clock(i: Inputs) returns (sinkReady: bool, sourceValid: bool, offered: Beat)
      modifies this
      ensures sinkReady == old(Now()).Ready(i)
      ensures sourceValid == old(valid) && offered == old(beat)
      ensures Now() == old(Now()).Step(i)
    {
      sinkReady, sourceValid, offered := i.ready || !valid, valid, beat;
      if sinkReady {
        valid, beat := i.valid, i.beat;
      }
    }
  }
}
