/**
 The RAM behind the accelerator's two streams. Words from the host are stored one after the other at a
 wrapping write pointer that a channel-1 marker resets; on command a packet of words is read
 back, with the next address looked ahead so that a word can leave on every cycle.

 The clocked process is the class. What it does over whole runs is proved about its step: every run stores
 exactly what the accepted beats say, and every packet is the commanded stretch of RAM.
 */
module DataInterface {
  import opened IntegerArithmetic

  /** A RAM word as its four byte lanes, lowest address first. */
  datatype Word = Word(b0: int, b1: int, b2: int, b3: int)

  const ZeroWord := Word(0, 0, 0, 0)

  // ---- What the streams mean, without a clock ----

  function Next(p: nat, n: nat): nat
    requires p < n
  {
    if p + 1 == n then 0 else p + 1
  }

  /** A word on its way to the sink; a marker carries channel 1. */
  datatype SinkBeat = SinkBeat(marker: bool, data: Word)

  datatype Store = Store(ram: seq<Word>, ptr: nat)
  {
    predicate Valid() { ptr < |ram| }
  }

  /** One accepted beat. */
  function Stored(s: Store, b: SinkBeat): (r: Store)
    requires s.Valid()
    ensures r.Valid() && |r.ram| == |s.ram|
  {
    if b.marker then s.(ptr := 0) else Store(s.ram[s.ptr := b.data], Next(s.ptr, |s.ram|))
  }

  function AllStored(s: Store, beats: seq<SinkBeat>): (r: Store)
    requires s.Valid()
    ensures r.Valid() && |r.ram| == |s.ram|
    decreases |beats|
  {
    if beats == [] then s else AllStored(Stored(s, beats[0]), beats[1..])
  }

  /** Words as plain beats. */
  function Plain(words: seq<Word>): seq<SinkBeat> { seq(|words|, i requires 0 <= i < |words| => SinkBeat(false, words[i])) }

  /** Words as markers. */
  function Markers(words: seq<Word>): seq<SinkBeat> { seq(|words|, i requires 0 <= i < |words| => SinkBeat(true, words[i])) }

  /** Markers store nothing; one is enough for what follows to be stored from address 0 on. */
  lemma {:induction false} MarkersRewind(s: Store, words: seq<Word>)
    requires s.Valid()
    ensures AllStored(s, Markers(words)) == Store(s.ram, if words == [] then s.ptr else 0)
    decreases |words|
  {
    if words != [] {
      assert Markers(words)[1..] == Markers(words[1..]);
      MarkersRewind(Store(s.ram, 0), words[1..]);
    }
  }

  /** A stretch of RAM, wrapping past the end. */
  function Stretch(ram: seq<Word>, start: int, count: nat): (r: seq<Word>)
    requires |ram| > 0
    ensures |r| == count
  {
    seq(count, i => ram[Slot(start + i, |ram|)])
  }

  lemma {:induction false} StoredInTurn(s: Store, a: seq<SinkBeat>, b: seq<SinkBeat>)
    requires s.Valid()
    ensures AllStored(s, a + b) == AllStored(AllStored(s, a), b)
    decreases |a|
  {
    if a == [] {
      assert a + b == b;
    } else {
      assert (a + b)[1..] == a[1..] + b;
      StoredInTurn(Stored(s, a[0]), a[1..], b);
    }
  }

  lemma SlotNext(x: int, n: nat)
    requires 0 < n
    ensures Slot(x + 1, n) == Next(Slot(x, n), n)
  {
    SlotOfSlot(x, n);
    SlotShift(x, Slot(x, n), 1, n);
  }

  lemma SlotOfSlot(x: int, n: nat)
    requires 0 < n
    ensures Slot(Slot(x, n), n) == Slot(x, n)
  {
  }

  /** Two places less than a lap apart are different cells. */
  lemma SlotsDiffer(a: int, b: int, n: nat)
    requires 0 < n && a < b < a + n
    ensures Slot(a, n) != Slot(b, n)
  {
    SlotShift(a, Slot(a, n), b - a, n);
  }

  /** The cell j places after p. */
  function Cell(p: int, j: int, n: nat): nat
    requires 0 < n
  {
    Slot(p + j, n)
  }

  /** No word of count words stored from p on goes to cell c. */
  ghost predicate Untouched(p: int, count: nat, c: nat, n: nat)
    requires 0 < n
  {
    forall j :: 0 <= j < count ==> Cell(p, j, n) != c
  }

  /** Storing one more word. */
  lemma StoredLast(s: Store, front: seq<Word>, last: Word)
    requires s.Valid()
    ensures AllStored(s, Plain(front + [last])) == Stored(AllStored(s, Plain(front)), SinkBeat(false, last))
  {
    var b := SinkBeat(false, last);
    assert Plain(front + [last]) == Plain(front) + [b];
    StoredInTurn(s, Plain(front), [b]);
    assert AllStored(AllStored(s, Plain(front)), [b]) == AllStored(Stored(AllStored(s, Plain(front)), b), []);
  }

  /**
   Storing a run of words: each of the last lap's worth is in the cell its position gives,
   and a cell no word was sent to is unchanged.
   */
  lemma {:induction false} StoredWhere(s: Store, words: seq<Word>)
    requires s.Valid()
    ensures AllStored(s, Plain(words)).ptr == Slot(s.ptr + |words|, |s.ram|)
    ensures forall j :: 0 <= j < |words| && |words| - |s.ram| <= j ==>
      AllStored(s, Plain(words)).ram[Cell(s.ptr, j, |s.ram|)] == words[j]
    ensures forall c :: 0 <= c < |s.ram| && Untouched(s.ptr, |words|, c, |s.ram|) ==>
      AllStored(s, Plain(words)).ram[c] == s.ram[c]
    decreases |words|
  {
    var n, k := |s.ram|, |words| - 1;
    if words != [] {
      var front, last := words[..k], words[k];
      assert words == front + [last];
      StoredWhere(s, front);
      StoredLast(s, front, last);
      SlotNext(s.ptr + k, n);
      var after := AllStored(s, Plain(words));
      forall j | 0 <= j < |words| && |words| - n <= j ensures after.ram[Cell(s.ptr, j, n)] == words[j] {
        if j < k { SlotsDiffer(s.ptr + j, s.ptr + k, n); }
      }
      forall c | 0 <= c < n && Untouched(s.ptr, |words|, c, n) ensures after.ram[c] == s.ram[c] {
        assert Cell(s.ptr, k, n) != c;
        assert Untouched(s.ptr, k, c, n);
      }
    } else {
      assert Plain(words) == [];
    }
  }

  /** From a reset pointer, no more words than cells: the words in front, the rest unchanged. */
  lemma StoredFromReset(ram: seq<Word>, words: seq<Word>)
    requires |ram| > 0 && |words| <= |ram|
    ensures AllStored(Store(ram, 0), Plain(words)).ram == words + ram[|words|..]
  {
    var s := Store(ram, 0);
    StoredWhere(s, words);
    var after := AllStored(s, Plain(words)).ram;
    forall c | 0 <= c < |ram| ensures after[c] == (words + ram[|words|..])[c] {
      if c < |words| {
        assert Cell(0, c, |ram|) == c;
      } else {
        assert Untouched(0, |words|, c, |ram|);
      }
    }
  }

  // ---- The clocked process ----

  datatype Phase = Idle | Prefetch | Send | Flush

  /** The registers; q is the RAM's registered read port. */
  datatype State = State(ram: seq<Word>, q: Word, wrPtr: nat, phase: Phase, rdPtr: nat, remaining: nat, first: bool)
  {
    predicate Valid() { wrPtr < |ram| && rdPtr < |ram| && (phase.Prefetch? || phase.Send? ==> 1 <= remaining) }

    function Sink(): Store { Store(ram, wrPtr) }
  }

  /** One cycle's inputs. */
  datatype Inputs = Inputs(valid: bool, marker: bool, data: Word, ready: bool, start: bool, startAddr: nat, length: nat)

  /** Addresses and lengths have as many values as the RAM has cells. */
  predicate Fits(i: Inputs, n: nat) { i.startAddr < n && i.length < n }

  datatype SourceBeat = SourceBeat(data: Word, sop: bool, eop: bool)

  /** What the source shows while it is sending. */
  function Offered(s: State): SourceBeat { SourceBeat(s.q, s.first, s.remaining == 1) }

  function Writes(s: State, i: Inputs): bool { i.valid && s.phase.Idle? && !i.marker }

  function Address(s: State, i: Inputs): nat
    requires s.Valid()
  {
    if Writes(s, i) then s.wrPtr else if s.phase.Send? && i.ready then Next(s.rdPtr, |s.ram|) else s.rdPtr
  }

  /** One rising edge. */
  function Step(s: State, i: Inputs): (r: State)
    requires s.Valid() && Fits(i, |s.ram|)
    ensures r.Valid() && |r.ram| == |s.ram|
  {
    var ram := if Writes(s, i) then s.ram[s.wrPtr := i.data] else s.ram;
    var wrPtr := if i.valid && s.phase.Idle? && i.marker then 0 else if Writes(s, i) then Next(s.wrPtr, |ram|) else s.wrPtr;
    var t := s.(ram := ram, q := ram[Address(s, i)], wrPtr := wrPtr);
    match s.phase
    case Idle =>
      if i.start && i.length != 0 then
        t.(rdPtr := i.startAddr, remaining := i.length, first := true, phase := Prefetch)
      else t
    case Prefetch => t.(phase := Send)
    case Send =>
      if !i.ready then t
      else if s.remaining == 1 then t.(first := false, phase := Flush)
      else t.(first := false, rdPtr := Next(s.rdPtr, |ram|), remaining := s.remaining - 1)
    case Flush => t.(phase := Idle)
  }

  /** The beat the sink takes in a cycle, if any. */
  function Taken(s: State, i: Inputs): seq<SinkBeat>
  {
    if i.valid && s.phase.Idle? then [SinkBeat(i.marker, i.data)] else []
  }

  /** The beat that leaves in a cycle, if any. */
  function Sent(s: State, i: Inputs): seq<SourceBeat>
  {
    if s.phase.Send? && i.ready then [Offered(s)] else []
  }

  ghost predicate AllFit(inputs: seq<Inputs>, n: nat) { forall k :: 0 <= k < |inputs| ==> Fits(inputs[k], n) }

  function After(s: State, inputs: seq<Inputs>): (r: State)
    requires s.Valid() && AllFit(inputs, |s.ram|)
    ensures r.Valid() && |r.ram| == |s.ram|
    decreases |inputs|
  {
    if inputs == [] then s else After(Step(s, inputs[0]), inputs[1..])
  }

  function AllTaken(s: State, inputs: seq<Inputs>): seq<SinkBeat>
    requires s.Valid() && AllFit(inputs, |s.ram|)
    decreases |inputs|
  {
    if inputs == [] then [] else Taken(s, inputs[0]) + AllTaken(Step(s, inputs[0]), inputs[1..])
  }

  /**
   Whatever the commands and the backpressure, the RAM and the write pointer are what the taken
   beats make them: reading changes nothing, and no taken beat is lost.
   */
  lemma {:induction false} SinkRun(s: State, inputs: seq<Inputs>)
    requires s.Valid() && AllFit(inputs, |s.ram|)
    ensures After(s, inputs).Sink() == AllStored(s.Sink(), AllTaken(s, inputs))
    decreases |inputs|
  {
    if inputs != [] {
      var i := inputs[0];
      SinkRun(Step(s, i), inputs[1..]);
      StoredInTurn(s.Sink(), Taken(s, i), AllTaken(Step(s, i), inputs[1..]));
      if i.valid && s.phase.Idle? {
        assert AllStored(s.Sink(), Taken(s, i)) == AllStored(Stored(s.Sink(), Taken(s, i)[0]), []);
      }
    }
  }

  /** The beats that arrive at the sink. */
  function Arriving(inputs: seq<Inputs>): seq<SinkBeat>
    decreases |inputs|
  {
    if inputs == [] then []
    else (if inputs[0].valid then [SinkBeat(inputs[0].marker, inputs[0].data)] else []) + Arriving(inputs[1..])
  }

  /** While nothing is commanded, or nothing but empty packets, every arriving beat is taken in its first cycle. */
  lemma {:induction false} IdleTakesAll(s: State, inputs: seq<Inputs>)
    requires s.Valid() && AllFit(inputs, |s.ram|) && s.phase.Idle?
    requires forall k :: 0 <= k < |inputs| ==> !inputs[k].start || inputs[k].length == 0
    ensures After(s, inputs).phase.Idle? && AllTaken(s, inputs) == Arriving(inputs)
    decreases |inputs|
  {
    if inputs != [] {
      IdleTakesAll(Step(s, inputs[0]), inputs[1..]);
    }
  }

  // ---- Packets ----

  /** Beat k of the packet that a command asks for. */
  function PacketBeat(ram: seq<Word>, start: nat, length: nat, k: nat): SourceBeat
    requires k < length && |ram| > 0
  {
    SourceBeat(Stretch(ram, start, length)[k], k == 0, k == length - 1)
  }

  /** The state of a machine that has sent k beats of the packet. */
  ghost predicate Sending(s: State, ram: seq<Word>, start: nat, length: nat, k: nat)
  {
    && s.Valid() && s.ram == ram && k <= length
    && match s.phase
       case Prefetch => k == 0 && s.rdPtr == Slot(start, |ram|) && s.remaining == length && s.first
       case Send =>
         && k < length && s.remaining == length - k && s.first == (k == 0)
         && s.rdPtr == Slot(start + k, |ram|) && s.q == ram[s.rdPtr]
       case Flush => k == length
       case Idle => k == length
  }

  /** The command that starts a packet leaves the machine about to send it. */
  lemma CommandTaken(s: State, i: Inputs)
    requires s.Valid() && Fits(i, |s.ram|) && s.phase.Idle? && i.start && i.length != 0
    ensures Sending(Step(s, i), Step(s, i).ram, i.startAddr, i.length, 0) && Step(s, i).phase.Prefetch?
  {
    assert Slot(i.startAddr, |s.ram|) == i.startAddr;
  }

  /** One cycle of a packet: at most the next beat leaves, and the RAM is left alone. */
  lemma SendingStep(s: State, i: Inputs, ram: seq<Word>, start: nat, length: nat, k: nat)
    requires Sending(s, ram, start, length, k) && !s.phase.Idle? && Fits(i, |s.ram|)
    ensures Sent(s, i) == [] || (k < length && Sent(s, i) == [PacketBeat(ram, start, length, k)])
    ensures Sending(Step(s, i), ram, start, length, k + |Sent(s, i)|)
  {
    SlotNext(start + k, |ram|);
  }

  /** A beat that is not taken stays as it is. */
  lemma OfferedIsStable(s: State, i: Inputs, ram: seq<Word>, start: nat, length: nat, k: nat)
    requires Sending(s, ram, start, length, k) && s.phase.Send? && !i.ready && Fits(i, |s.ram|)
    ensures Step(s, i).phase.Send? && Offered(Step(s, i)) == Offered(s)
  {
  }

  /** Beats sent until the machine is idle again, and the state the run then has. */
  function Finish(s: State, inputs: seq<Inputs>): (r: (seq<SourceBeat>, State))
    requires s.Valid() && AllFit(inputs, |s.ram|)
    decreases |inputs|
  {
    if inputs == [] || s.phase.Idle? then ([], s)
    else
      var rest := Finish(Step(s, inputs[0]), inputs[1..]);
      (Sent(s, inputs[0]) + rest.0, rest.1)
  }

  function Packet(ram: seq<Word>, start: nat, length: nat): (r: seq<SourceBeat>)
    requires |ram| > 0
    ensures |r| == length
  {
    seq(length, k requires 0 <= k < length => PacketBeat(ram, start, length, k))
  }

  /** Cycles with the receiver ready that are enough to finish. */
  function ReadyNeeded(s: State): nat
  {
    match s.phase
    case Idle => 0
    case Prefetch => s.remaining + 2
    case Send => s.remaining + 1
    case Flush => 1
  }

  function ReadyCycles(inputs: seq<Inputs>): nat
  {
    if inputs == [] then 0 else (if inputs[0].ready then 1 else 0) + ReadyCycles(inputs[1..])
  }

  lemma PacketPart(ram: seq<Word>, start: nat, length: nat, k: nat, k': nat)
    requires k < k' <= length && |ram| > 0
    ensures Packet(ram, start, length)[k..k'] == [PacketBeat(ram, start, length, k)] + Packet(ram, start, length)[k + 1..k']
  {
  }

  /**
   Under any pattern of readiness, and whatever arrives at the sink or the command port, the
   beats sent are the packet from its first beat on.
   */
  lemma {:induction false} PacketRun(s: State, inputs: seq<Inputs>, ram: seq<Word>, start: nat, length: nat, k: nat) returns (k': nat)
    requires Sending(s, ram, start, length, k) && AllFit(inputs, |s.ram|)
    ensures Sending(Finish(s, inputs).1, ram, start, length, k')
    ensures k <= k' && Finish(s, inputs).0 == Packet(ram, start, length)[k..k']
    decreases |inputs|
  {
    k' := k;
    if inputs != [] && !s.phase.Idle? {
      var i := inputs[0];
      SendingStep(s, i, ram, start, length, k);
      k' := PacketRun(Step(s, i), inputs[1..], ram, start, length, k + |Sent(s, i)|);
      if Sent(s, i) != [] {
        PacketPart(ram, start, length, k, k');
      }
    }
  }

  /** Enough ready cycles, however they are spread, finish a packet. */
  lemma {:induction false} PacketFinishes(s: State, inputs: seq<Inputs>)
    requires s.Valid() && AllFit(inputs, |s.ram|) && ReadyNeeded(s) <= ReadyCycles(inputs)
    ensures Finish(s, inputs).1.phase.Idle?
    decreases |inputs|
  {
    if inputs != [] && !s.phase.Idle? {
      var i := inputs[0];
      assert ReadyNeeded(Step(s, i)) + (if i.ready then 1 else 0) <= ReadyNeeded(s);
      PacketFinishes(Step(s, i), inputs[1..]);
    }
  }

  /** Cycles that report a packet done, until the machine is idle again. */
  function DoneCycles(s: State, inputs: seq<Inputs>): nat
    requires s.Valid() && AllFit(inputs, |s.ram|)
    decreases |inputs|
  {
    if inputs == [] || s.phase.Idle? then 0
    else (if s.phase.Flush? then 1 else 0) + DoneCycles(Step(s, inputs[0]), inputs[1..])
  }

  /** A packet is reported done once, and not before its last beat has left. */
  lemma {:induction false} DoneOnce(s: State, inputs: seq<Inputs>)
    requires s.Valid() && AllFit(inputs, |s.ram|) && !s.phase.Idle?
    ensures DoneCycles(s, inputs) == if Finish(s, inputs).1.phase.Idle? then 1 else 0
    decreases |inputs|
  {
    if inputs != [] {
      var t := Step(s, inputs[0]);
      if t.phase.Idle? {
        assert Finish(t, inputs[1..]).1 == t;
      } else {
        DoneOnce(t, inputs[1..]);
      }
    }
  }

  /** Words of a packet, without the framing. */
  function Payload(beats: seq<SourceBeat>): seq<Word> { seq(|beats|, i requires 0 <= i < |beats| => beats[i].data) }

  /** A commanded packet that runs to its end carries the commanded stretch of RAM, framed once. */
  lemma CommandedPacket(s: State, i: Inputs, inputs: seq<Inputs>)
    requires s.Valid() && Fits(i, |s.ram|) && AllFit(inputs, |s.ram|)
    requires s.phase.Idle? && i.start && i.length != 0
    requires i.length + 2 <= ReadyCycles(inputs)
    ensures var t := Step(s, i);
      && Finish(t, inputs).0 == Packet(t.ram, i.startAddr, i.length)
      && Payload(Finish(t, inputs).0) == Stretch(t.ram, i.startAddr, i.length)
      && Finish(t, inputs).1.ram == t.ram && Finish(t, inputs).1.phase.Idle?
  {
    CommandTaken(s, i);
    var t := Step(s, i);
    var k := PacketRun(t, inputs, t.ram, i.startAddr, i.length, 0);
    PacketFinishes(t, inputs);
    var p := Packet(t.ram, i.startAddr, i.length);
    assert p[0..k] == p;
    assert Payload(p) == Stretch(t.ram, i.startAddr, i.length);
  }

  /** The registers of the entity, changed in place on every rising edge. */
  class DataPort {
    var ram: seq<Word>
    var q: Word
    var wrPtr: nat
    var phase: Phase
    var rdPtr: nat
    var remaining: nat
    var first: bool

    function Now(): State
      reads this
    {
      State(ram, q, wrPtr, phase, rdPtr, remaining, first)
    }

    /** After reset, with whatever the RAM held. */
    constructor (contents: seq<Word>)
      requires |contents| > 0
      ensures Now().Valid() && ram == contents && wrPtr == 0 && phase == Idle
    {
      ram, q, wrPtr, phase, rdPtr, remaining, first := contents, ZeroWord, 0, Idle, 0, 0, true;
    }

    /**
     One rising edge: the right-hand sides read the registers as they were. The results are the signals of the cycle
     before it.
     */
    method Clock(i: Inputs) returns (sinkReady: bool, sourceValid: bool, offered: SourceBeat, done: bool)
      requires Now().Valid() && Fits(i, |ram|)
      modifies this
      ensures Now() == Step(old(Now()), i)
      ensures Taken(old(Now()), i) == if i.valid && sinkReady then [SinkBeat(i.marker, i.data)] else []
      ensures Sent(old(Now()), i) == if sourceValid && i.ready then [offered] else []
      ensures done == old(phase).Flush? && (!sourceValid ==> !offered.sop && !offered.eop)
    {
      sinkReady, sourceValid, done := phase.Idle?, phase.Send?, phase.Flush?;
      offered := SourceBeat(q, sourceValid && first, sourceValid && remaining == 1);
      var write := i.valid && sinkReady && !i.marker;
      var address := if write then wrPtr else if phase.Send? && i.ready then Next(rdPtr, |ram|) else rdPtr;
      if write { ram := ram[wrPtr := i.data]; }
      q := ram[address];
      if i.valid && sinkReady && i.marker {
        wrPtr := 0;
      } else if write {
        wrPtr := Next(wrPtr, |ram|);
      }
      match phase {
        case Idle =>
          if i.start && i.length != 0 {
            rdPtr, remaining, first, phase := i.startAddr, i.length, true, Prefetch;
          }
        case Prefetch =>
          phase := Send;
        case Send =>
          if i.ready {
            first := false;
            if remaining == 1 {
              phase := Flush;
            } else {
              rdPtr, remaining := Next(rdPtr, |ram|), remaining - 1;
            }
          }
        case Flush =>
          phase := Idle;
      }
    }
  }
}
