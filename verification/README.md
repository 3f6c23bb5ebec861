# Verified models of the Neurax hardware and driver code

The Neurax project drives a convolution and pooling accelerator on a Cyclone V board: SDRAM
calibration firmware, a Linux mSGDMA driver, user-space transfer code, test benches that cut
images into tiles, and the RAM and stream interfaces in VHDL. This directory models the four parts in
which a mistake is hardest to see and proves what each is for.

**SDRAM calibration** (`EyeSweep`, `EyeCentering`, `DmSearch`, `WriteCenter`, `DqsEnable`, `SteadyReads`, `SteadySearch`,
`SteadyRuns`, `LatencyLoops`, `CorrectMask`, `GroupBank`, `Calibration`). The PHY is a set of delay registers and a pass/fail oracle; tap limits, group
width, the number of ranks and the number of virtual groups are symbolic. The sweeps are proved to measure the
true window of every bit, centering to put every bit inside it whenever that is possible, the mask search to
find the first longest run in spite of its early exit, and the DQS-enable search to account for every
tap it moves: both edges of the window it centres are tied to the settings they were tested at, and the settings between passed.
Against reads that are steady the condition under which it finds a centre is exact, and one on the read window alone. `Calibration` runs these
routines on the registers of every group in turn and says exactly which delays are tried and in which order, when the entry point
returns true, what it leaves in the registers of every group, and which error it leaves on record.

**mSGDMA driver** (`DescriptorPool`, `DescriptorSplit`). Every region the driver runs under its lock is one step of
a state machine; preps, submissions, interrupts and the completion tasklet (whose callback runs without the lock)
interleave freely, for any number of descriptors and clients. `Msgdma` is the driver's state as it is
updated in place; each method is proved to perform the step the machine is made of.

**Tiling and transfers** (`RasterImages`, `ConvolutionTiling`, `PoolingTiling`, `UioTransfer`, `EdgeImage`). The
convolution and pooling blocks are arbitrary functions of a window, so the tilings are correct for every kernel, bias,
rounding and pooling type, every image size and every block size.

**Stream hardware** (`StreamStage`, `DataInterface`). Clocked processes as state machines, with theorems over
every sequence of inputs. The transfer code and the RAM behind it share one definition of what a stream of words does.

`IntegerArithmetic` holds the few facts about truncating halves, remainders and products the others need, and `Results`
the result type of operations that can fail.

## What the proofs found

- Read centering succeeds if and only if every bit's right edge can be reached with the chosen strobe delay; write
  centering of data and mask succeeds if and only if no measured window lies wholly to the right of position 0, because
  the strobe is not moved in this configuration. Two good windows on opposite sides are measured and then missed by the one
  (`OppositeWindowsAreMissed`), a window to the right by the other (`RightWindowIsMissed`).
- The sweeps report the exact window of a bit whose passing positions have no gap. A bit that passes at its
  entry setting in the left sweep and fails there in the right one keeps a right edge of -1, not a missing window. A bit
  that does the opposite, and passes nowhere in the left sweep, is reported without a window although it passes
  (`EmergingBitIsMissed`).
- In the DQS-enable search the recorded end of the window is one phase tap short if and only if the window begins at phase 1
  without delay: backing off cannot go to phase 0, the phase counter moves on, and the end counter does not. A stream of
  verdicts that gets there is given (`ShortEndRecorded`).
- When the scan's first look beyond the first passing setting fails at a usable phase, the search moves the begin edge to that
  failing setting (`ShortWindowIsMissed`).
- Let reads depend only on the delay of the setting, and pass in one interval, at least a phase tap long, of every VFIFO turn. Then the
  search finds a centre except in four cases, which are exact: the interval lies between the last phase of a slot and phase 1
  of the next, and no delay tap reaches it or the middle of the taps in it falls into the next slot (`NarrowIntervalIsMissed`);
  it begins at phase 1 and holds no phase 1 with as many delay taps as reach a phase tap (`ShortWindowIsMissed`); it holds a single phase,
  neither the first nor the last of its slot; it holds only the last phase of a slot, and its middle falls into the
  next one or is rounded out of it. So an interval longer than a phase tap can be missed, but none of three phase taps and a
  delay tap. A centred window that does not begin at phase 1 has both edges within one tap of the interval's, unless
  the delay chain ends before.
- `mem_calibrate` can return 1 with an error on record: a centering attempt that finds a pin without a window records it at
  once, and a later attempt may succeed. After a return of 1 the record is empty if and only if no attempt met such a
  pin; otherwise it names the VFIFO centering stage and, instead of the group, the pin.
- After a DQS-enable search that fails at every strobe delay, the next output delay starts its sweep from the
  last strobe tap, because the sweep reads its start from the register it moved.
- `msgdma_start_transfer` writes one transaction to the hardware but activates all pending ones. The hardware gets everything
  that was activated if and only if no start ever finds more than one pending transaction.
- A scatterlist longer than the caller's count is followed one entry too far, so more descriptors are taken than were
  reserved; a copy of length 0 takes one descriptor and reserves none. In every other case the two numbers agree. Each
  descriptor taken too many is promised by the counter forever after, and another client can meet the empty list.
- A pooling window larger than the block by more than the stride makes the range step negative: no tile is run and the
  result is all zeros, without an error (`NoTileRuns`).
- A start-of-frame marker whose descriptor stops counts as sent. A write then succeeds with RAM and write pointer as they are promised
  if and only if the marker had reached the RAM or the pointer stood at 0 (`StoppedMarkerMisplaces`).

## Model

| member | source | states |
|---|---|---|
| EyeSweep.DelayGroup.SweepsAgree | hardware/quartus/hps_isw_handoff/soc_system_hps_0/sequencer.c:5132-5298 | for a steady bit without gaps the report is unique, so the read and write sweeps cannot disagree |
| EyeSweep.DelayGroup.ChartIsUnique | hardware/quartus/hps_isw_handoff/soc_system_hps_0/sequencer.c:5132-5298 | where both sweeps stop, and every edge they report, is determined by the eye and the entry strobe delay alone |
| EyeSweep.DelayGroup.Test | hardware/quartus/hps_isw_handoff/soc_system_hps_0/sequencer.c:5144-5151 | a test word has the bit of every pin that passes at its strobe-minus-data delay |
| EyeSweep.DelayGroup.RecordLeft | hardware/quartus/hps_isw_handoff/soc_system_hps_0/sequencer.c:5159-5172 | the edges after one test of the left sweep, pin by pin |
| EyeSweep.DelayGroup.RecordRight | hardware/quartus/hps_isw_handoff/soc_system_hps_0/sequencer.c:5232-5258 | the edges after one test of the right sweep, with the marginal case of delay 0 |
| EyeSweep.DelayGroup.LeftStep | hardware/quartus/hps_isw_handoff/soc_system_hps_0/sequencer.c:5156-5173 | recording one test extends what is known of every bit by one position |
| EyeSweep.DelayGroup.LeftSweep | hardware/quartus/hps_isw_handoff/soc_system_hps_0/sequencer.c:5138-5174 | what the left sweep knows of each bit; if it stops early, every bit had passed and fails at the stop |
| EyeSweep.DelayGroup.ResetEdges | hardware/quartus/hps_isw_handoff/soc_system_hps_0/sequencer.c:5176-5200 | a right edge without a left edge is dropped; the sticky word starts as the read or the write routine wants it |
| EyeSweep.DelayGroup.SeenStart | hardware/quartus/hps_isw_handoff/soc_system_hps_0/sequencer.c:5176-5200 | the reset hands the left sweep's knowledge to the right sweep, early stop or not |
| EyeSweep.DelayGroup.SeenStep | hardware/quartus/hps_isw_handoff/soc_system_hps_0/sequencer.c:5232-5258 | one test of the right sweep keeps and extends that knowledge |
| EyeSweep.DelayGroup.SeenEnd | hardware/quartus/hps_isw_handoff/soc_system_hps_0/sequencer.c:5202-5260 | at the end of the chain, or at an early stop, the edges are the true window |
| EyeSweep.DelayGroup.SeenStopAtZero | hardware/quartus/hps_isw_handoff/soc_system_hps_0/sequencer.c:7351-7360 | the write sweep may stop at its first test; marking the marginal bits -1 then gives the true window |
| EyeSweep.DelayGroup.RightTest | hardware/quartus/hps_isw_handoff/soc_system_hps_0/sequencer.c:5203-5231 | the strobe moves, the stop flag holds exactly when nothing passes and every bit was seen |
| EyeSweep.DelayGroup.MarkMarginal | hardware/quartus/hps_isw_handoff/soc_system_hps_0/sequencer.c:7351-7360 | exactly the bits with a left and no right edge become marginal |
| EyeSweep.DelayGroup.ReadSweeps | hardware/quartus/hps_isw_handoff/soc_system_hps_0/sequencer.c:5132-5298 | the left sweep stops at the first delay where every bit fails and has passed, the right one where every bit fails and has shown both edges, and the strobe is left there; every bit is reported as it is: a steady bit misses an edge exactly when no position in range passes, has passing edges otherwise, and its exact window when there is no gap; what is reported for a bit that fades or emerges at its entry setting |
| EyeSweep.DelayGroup.WriteSweeps | hardware/quartus/hps_isw_handoff/soc_system_hps_0/sequencer.c:7266-7411 | the same for the write sweep, which stops already when every bit has shown its left edge or passed in the right sweep |
| EyeSweep.DelayGroup.MissingIffWindowless | hardware/quartus/hps_isw_handoff/soc_system_hps_0/sequencer.c:5274-5298 | an edge is missing exactly if a steady bit passes nowhere, or an emerging one passes nowhere in the left sweep |
| EyeCentering.AimIsCeiling | hardware/quartus/hps_isw_handoff/soc_system_hps_0/sequencer.c:5311-5316 | the strobe aims at half the spread rounded up, for either sign |
| EyeCentering.UnclampedIsBalanced | hardware/quartus/hps_isw_handoff/soc_system_hps_0/sequencer.c:5353-5379 | a bit whose delay is not clamped has margins that differ by at most one tap, and is inside |
| EyeCentering.StrobeClampOnlyAtZero | hardware/quartus/hps_isw_handoff/soc_system_hps_0/sequencer.c:5322-5329 | the upper strobe clamp can never fire on measured edges |
| EyeCentering.ReadBitInside | hardware/quartus/hps_isw_handoff/soc_system_hps_0/sequencer.c:5353-5379 | one bit ends inside its window if and only if its right edge can be reached |
| EyeCentering.WriteBitInside | hardware/quartus/hps_isw_handoff/soc_system_hps_0/sequencer.c:7413-7499 | one bit ends inside its window if and only if the window reaches position 0 |
| EyeCentering.ReadSuccessCondition | hardware/quartus/hps_isw_handoff/soc_system_hps_0/sequencer.c:5300-5443 | read centering of a group succeeds if and only if every right edge can be reached |
| EyeCentering.ReadBalanced | hardware/quartus/hps_isw_handoff/soc_system_hps_0/sequencer.c:5300-5443 | when no data delay is clamped, every bit is inside and balanced |
| EyeCentering.WriteSuccessCondition | hardware/quartus/hps_isw_handoff/soc_system_hps_0/sequencer.c:7413-7499 | write centering of a group succeeds if and only if no window lies wholly right of position 0 |
| EyeCentering.OppositeWindowsAreMissed | hardware/quartus/hps_isw_handoff/soc_system_hps_0/sequencer.c:5121-5443 | a run of read centering on a group with two ordered windows that are measured as they are and that it misses |
| EyeCentering.RightWindowIsMissed | hardware/quartus/hps_isw_handoff/soc_system_hps_0/sequencer.c:7266-7519 | a run of write centering that measures a window right of position 0 as it is and ends with a negative margin |
| EyeCentering.EmergingBitIsMissed | hardware/quartus/hps_isw_handoff/soc_system_hps_0/sequencer.c:5132-5298 | a run of read centering that reports a bit without a window although it passes at twenty delays |
| EyeCentering.InsidePasses | hardware/quartus/hps_isw_handoff/soc_system_hps_0/sequencer.c:5443 | a success means that the programmed delays pass the test |
| EyeCentering.MarginsDecide | hardware/quartus/hps_isw_handoff/soc_system_hps_0/sequencer.c:5348-5443 | both margins are non-negative if and only if every final position is inside its window |
| EyeCentering.MarginsOfPins | hardware/quartus/hps_isw_handoff/soc_system_hps_0/sequencer.c:5372-5378 | the running minima are the smallest distances from the final positions to the edges, capped at the start value |
| EyeCentering.FirstMissing | hardware/quartus/hps_isw_handoff/soc_system_hps_0/sequencer.c:5274-5298 | the first bit without an edge, or none |
| EyeCentering.SmallestSpread | hardware/quartus/hps_isw_handoff/soc_system_hps_0/sequencer.c:5300-5309 | the smallest difference of edges and a bit that has it |
| EyeCentering.CenterPin | hardware/quartus/hps_isw_handoff/soc_system_hps_0/sequencer.c:5353-5379 | one pin's delay is its wish clamped to the chain, and the margins are lowered to its distances |
| EyeCentering.CenterPins | hardware/quartus/hps_isw_handoff/soc_system_hps_0/sequencer.c:5348-5379 | every pin's delay, and both margins as minima over the group |
| EyeCentering.MoveReadGroup | hardware/quartus/hps_isw_handoff/soc_system_hps_0/sequencer.c:5300-5417 | strobe and data delays of the group, all in range, and the reported margins |
| EyeCentering.ReadCenter | hardware/quartus/hps_isw_handoff/soc_system_hps_0/sequencer.c:5121-5443 | returns 1 exactly when every bit shows a window and ends inside it, and, with edges in order, exactly when every right edge can be reached; a bit without a window restores the delays and is named |
| EyeCentering.WriteCenterPins | hardware/quartus/hps_isw_handoff/soc_system_hps_0/sequencer.c:7256-7499 | the data half of write centering: margins non-negative exactly when every bit is inside, strobe back where it was; without all windows the pins are not delayed and the strobe stays where the sweep stopped |
| EyeCentering.MoveWriteGroup | hardware/quartus/hps_isw_handoff/soc_system_hps_0/sequencer.c:7413-7499 | the group's delays with the strobe where it was, and the reported margins |
| DmSearch.MaskLine.SearchStep | hardware/quartus/hps_isw_handoff/soc_system_hps_0/sequencer.c:7661-7680 | one pass-or-fail update keeps the current run maximal and the best run the first longest so far |
| DmSearch.MaskLine.EarlyExitLosesNothing | hardware/quartus/hps_isw_handoff/soc_system_hps_0/sequencer.c:7724-7727 | where the early exit fires, no run still to come could win |
| DmSearch.MaskLine.SweepMask | hardware/quartus/hps_isw_handoff/soc_system_hps_0/sequencer.c:7648-7683 | first phase: first longest run among the mask positions, and the run that touches position 0 |
| DmSearch.MaskLine.StrobeStep | hardware/quartus/hps_isw_handoff/soc_system_hps_0/sequencer.c:7695-7728 | one bookkeeping step of the second phase; position 0, which the first phase recorded already, is not counted twice |
| DmSearch.MaskLine.SweepStrobe | hardware/quartus/hps_isw_handoff/soc_system_hps_0/sequencer.c:7689-7730 | both phases: first longest run of the joined range, also across zero, or no passing position at all |
| DmSearch.MaskLine.CenterMask | hardware/quartus/hps_isw_handoff/soc_system_hps_0/sequencer.c:7646-7763 | the edges are those of the first longest run; the mask delay has both equally far away to one tap, or is zero; its margin is non-negative exactly when a window was found and the programmed position is in it |
| WriteCenter.WritesCenter | hardware/quartus/hps_isw_handoff/soc_system_hps_0/sequencer.c:7228-7765 | the whole write routine: every data pin is at its clamped centre and the mask is balanced in its window, whatever the verdict; success puts all of them inside their windows, and happens exactly when none of those windows lies wholly right of position 0 |
| DqsEnable.EnableSearch.IncrVfifo | hardware/quartus/hps_isw_handoff/soc_system_hps_0/sequencer.c:3874-3905 | the software counter stays congruent to the hardware pointer's displacement |
| DqsEnable.EnableSearch.DecrVfifo | hardware/quartus/hps_isw_handoff/soc_system_hps_0/sequencer.c:3922-3929 | size - 1 increments are one slot back, for counter and pointer alike |
| DqsEnable.EnableSearch.DtapsPerPtap | hardware/quartus/hps_isw_handoff/soc_system_hps_0/sequencer.c:4082-4090 | the number of delay taps strictly below one phase tap |
| DqsEnable.EnableSearch.PushToFailing | hardware/quartus/hps_isw_handoff/soc_system_hps_0/sequencer.c:4120-4141 | stops at the second failing read; gives up exactly after one turn with fewer than two |
| DqsEnable.EnableSearch.FindPhase | hardware/quartus/hps_isw_handoff/soc_system_hps_0/sequencer.c:4154-4171 | phase 0 is counted and not tried; the first passing phase of a slot, all before it failing |
| DqsEnable.EnableSearch.FindSlot | hardware/quartus/hps_isw_handoff/soc_system_hps_0/sequencer.c:4153-4181 | the first passing setting of one delay tap, none passed over |
| DqsEnable.EnableSearch.FindBegin | hardware/quartus/hps_isw_handoff/soc_system_hps_0/sequencer.c:4145-4192 | the first passing setting of all; every one before it was tried once and failed; its recorded delay is its distance from the sweep's start |
| DqsEnable.EnableSearch.RefineBegin | hardware/quartus/hps_isw_handoff/soc_system_hps_0/sequencer.c:4203-4234 | an earlier begin edge is a passing delay tap of the phase before; phase 1 is not refined |
| DqsEnable.EnableSearch.RefineEdge | hardware/quartus/hps_isw_handoff/soc_system_hps_0/sequencer.c:4196-4234 | the refined begin edge is the first passing tap of the phase before: every lower tap of that phase was tested and failed, and if none below a phase tap passed the edge stays; its recorded delay is its setting's; where the scan starts |
| DqsEnable.EnableSearch.ScanToEnd | hardware/quartus/hps_isw_handoff/soc_system_hps_0/sequencer.c:4320-4377 | the begin edge is where it was, or it is the failing setting tested first; the scan starts one usable phase beyond the first passing setting, goes on phase by phase, and all its tests but that one passed before the last |
| DqsEnable.EnableSearch.FindEnd | hardware/quartus/hps_isw_handoff/soc_system_hps_0/sequencer.c:4320-4377 | the first failing phase after a run of passing ones; exactly the very first test may move the begin edge instead, to its own setting's recorded delay |
| DqsEnable.EnableSearch.ScanPhases | hardware/quartus/hps_isw_handoff/soc_system_hps_0/sequencer.c:4334-4360 | the same for one slot, with the end counter in step with the setting and the value a moved begin edge takes |
| DqsEnable.EnableSearch.BackOffEnd | hardware/quartus/hps_isw_handoff/soc_system_hps_0/sequencer.c:4379-4398 | one phase back, over phase 0 if need be, with the end counter in step |
| DqsEnable.EnableSearch.ExtendEnd | hardware/quartus/hps_isw_handoff/soc_system_hps_0/sequencer.c:4427-4441 | every delay tap before the stop passes and the recorded end is the last of them |
| DqsEnable.EnableSearch.MeasureTracking | hardware/quartus/hps_isw_handoff/soc_system_hps_0/sequencer.c:4473-4539 | the taps are tested at the usable phase before the end edge's, upwards and no further than the first that fails after a passing one; if and only if there is such a tap, the number of taps per phase becomes the distance to it, otherwise the computed number stays |
| DqsEnable.EnableSearch.DelayWith | hardware/quartus/hps_isw_handoff/soc_system_hps_0/sequencer.c:4506-4527 | the first delay tap with the wanted verdict, all before it without |
| DqsEnable.EnableSearch.ReduceToCycle | hardware/quartus/hps_isw_handoff/soc_system_hps_0/sequencer.c:4552-4559 | the centre is reduced by whole VFIFO cycles to a positive delay of at most one |
| DqsEnable.EnableSearch.SplitPhase | hardware/quartus/hps_isw_handoff/soc_system_hps_0/sequencer.c:4561-4563 | the fewest phase taps that reach the centre, and no underflow in stepping one back |
| DqsEnable.EnableSearch.SplitDelay | hardware/quartus/hps_isw_handoff/soc_system_hps_0/sequencer.c:4565 | the fewest delay taps that reach the rest, within the chain |
| DqsEnable.EnableSearch.Center | hardware/quartus/hps_isw_handoff/soc_system_hps_0/sequencer.c:4549-4580 | the programmed phase and delay are legal and round the centre up by less than one tap; a centre within the first phase tap becomes phase 1 without delay |
| DqsEnable.EnableSearch.PhaseWindow | hardware/quartus/hps_isw_handoff/soc_system_hps_0/sequencer.c:4196-4402 | the begin edge with its setting, verdict and recorded delay, first, refined or moved; the scan for the end is one unbroken run of usable phases that pass, and the end is the phase right before the failing one; the end counter is one phase tap short if the window began at phase 1 |
| DqsEnable.EnableSearch.FirstSetting | hardware/quartus/hps_isw_handoff/soc_system_hps_0/sequencer.c:4143-4192 | the first passing setting, its test number fixed by the order of the search, less delay than a phase tap, and its recorded delay |
| DqsEnable.EnableSearch.BeginWindow | hardware/quartus/hps_isw_handoff/soc_system_hps_0/sequencer.c:4143-4402 | the begin edge of the window and the phase its end edge is at, with the tests between; or how the search ended without them |
| DqsEnable.EnableSearch.MeasureEnd | hardware/quartus/hps_isw_handoff/soc_system_hps_0/sequencer.c:4404-4441 | the end edge: every tap up to it passed, the next one failed unless the chain ended, its recorded delay is its setting's, short by the lag |
| DqsEnable.EnableSearch.MeasureWindow | hardware/quartus/hps_isw_handoff/soc_system_hps_0/sequencer.c:4143-4441 | both edges with the settings and verdicts they were measured at and their recorded delays; from the scan's start to the end edge every test passed, and the one that stopped it was made at the next usable phase, or the next tap; otherwise how the search ended |
| DqsEnable.EnableSearch.BeginIsLate | hardware/quartus/hps_isw_handoff/soc_system_hps_0/sequencer.c:4210 | the begin edge is late enough for backing off one phase not to underflow |
| DqsEnable.EnableSearch.PushToPassing | hardware/quartus/hps_isw_handoff/soc_system_hps_0/sequencer.c:4582-4598 | tests its setting in one slot after the other; ends on a passing read with that read's slot, phase and delay in force, or fails after every slot failed |
| DqsEnable.EnableSearch.FindDqsEnPhase | hardware/quartus/hps_isw_handoff/soc_system_hps_0/sequencer.c:4043-4616 | success exactly with a passing read at the centre of the window whose two measured edges it states, and then slot, phase and delay of that very read are in force; the recorded end is exact if and only if the window does not begin at phase 1 without delay, else one phase tap short; a failure says which of five it is and where it leaves the registers; the reported taps per phase are the measured or the computed number; all of it in terms of the settings and verdicts of the tests |
| DqsEnable.EnableSearch.ShortWindowFound | hardware/quartus/hps_isw_handoff/soc_system_hps_0/sequencer.c:4212-4232 | on every run in which reads fail at tests 0, 1 and 5 only, the search succeeds with a window from phase 1 without delay |
| DqsEnable.ShortEndRecorded | hardware/quartus/hps_isw_handoff/soc_system_hps_0/sequencer.c:4212-4232 | such a run, with the shipped tap delays: the recorded end is 312 short of its setting's delay |
| SteadyReads.PassingNear | hardware/quartus/hps_isw_handoff/soc_system_hps_0/sequencer.c:4043-4616 | between two copies of a steady interval, passing means being in the one between |
| SteadyReads.NoStepOver | hardware/quartus/hps_isw_handoff/soc_system_hps_0/sequencer.c:4145-4192 | a step to the next usable phase cannot pass over an interval of a phase tap, unless that lies around a phase 0 |
| SteadyReads.SweepMeets | hardware/quartus/hps_isw_handoff/soc_system_hps_0/sequencer.c:4145-4192 | so a sweep without delay meets every other interval |
| SteadyReads.FirstAt | hardware/quartus/hps_isw_handoff/soc_system_hps_0/sequencer.c:4145-4192 | the first passing setting is then the first usable phase in the interval |
| SteadyReads.RefinedAt | hardware/quartus/hps_isw_handoff/soc_system_hps_0/sequencer.c:4196-4234 | the refined begin edge is within one delay tap of the interval's, unless the window begins at phase 1 |
| SteadyReads.FirstLook | hardware/quartus/hps_isw_handoff/soc_system_hps_0/sequencer.c:4313-4377 | the begin edge is moved exactly if the scan's first look is at a usable phase beyond the interval |
| SteadyReads.EndPhaseAt | hardware/quartus/hps_isw_handoff/soc_system_hps_0/sequencer.c:4313-4398 | after backing off the search stands in the interval, one step before its end, except where the begin edge was moved |
| SteadyReads.ExtensionAt | hardware/quartus/hps_isw_handoff/soc_system_hps_0/sequencer.c:4427-4441 | the end edge is within one delay tap of the interval's, unless the chain ends |
| SteadyReads.ScanStops | hardware/quartus/hps_isw_handoff/soc_system_hps_0/sequencer.c:4313-4377 | the scan cannot go on for a whole turn |
| SteadyReads.WindowFits | hardware/quartus/hps_isw_handoff/soc_system_hps_0/sequencer.c:4143-4441 | the measured window is one on the interval: both edges, in all cases of its beginning |
| SteadySearch.FirstPlaceIsUnique | hardware/quartus/hps_isw_handoff/soc_system_hps_0/sequencer.c:4145-4192 | the first usable phase in an interval is one only |
| SteadySearch.MissedMoves | hardware/quartus/hps_isw_handoff/soc_system_hps_0/sequencer.c:4043-4616 | whether an interval is missed does not depend on the turn it is counted in |
| SteadySearch.FailuresAreSeen | hardware/quartus/hps_isw_handoff/soc_system_hps_0/sequencer.c:4120-4141 | the first step finds its two failing reads |
| SteadySearch.SweepCovers | hardware/quartus/hps_isw_handoff/soc_system_hps_0/sequencer.c:4145-4181 | a failing sweep at a delay tap shows that the last phase fails with that tap in every slot |
| SteadySearch.GapFirst | hardware/quartus/hps_isw_handoff/soc_system_hps_0/sequencer.c:4145-4192 | in an interval around a phase 0 the first passing setting is its first delay tap of the phase before |
| SteadySearch.CentreIsRounded | hardware/quartus/hps_isw_handoff/soc_system_hps_0/sequencer.c:4549-4580 | the programmed centre is the window's middle, rounded up to a delay tap, or phase 1 of its slot |
| SteadySearch.RoundedInside | hardware/quartus/hps_isw_handoff/soc_system_hps_0/sequencer.c:4549-4580 | the centre of a window with a second usable phase in it stays before its end |
| SteadySearch.RoundedInGap | hardware/quartus/hps_isw_handoff/soc_system_hps_0/sequencer.c:4549-4580 | the centre of delay taps of the last phase leaves them exactly if the middle falls into the next slot |
| SteadySearch.RoundedInLast | hardware/quartus/hps_isw_handoff/soc_system_hps_0/sequencer.c:4549-4580 | the centre of an interval with only the last phase in it leaves it exactly if the middle falls into the next slot or the delay taps are coarse |
| SteadySearch.MovedFromPhaseOne | hardware/quartus/hps_isw_handoff/soc_system_hps_0/sequencer.c:4320-4377 | a window from phase 1 whose begin edge was moved is centred on phase 1 with as many taps as reach a phase tap |
| SteadySearch.PushMeets | hardware/quartus/hps_isw_handoff/soc_system_hps_0/sequencer.c:4582-4598 | a failing push tried the centre in every slot |
| SteadySearch.GapSearch | hardware/quartus/hps_isw_handoff/soc_system_hps_0/sequencer.c:4043-4616 | an interval around a phase 0 is centred exactly if a tap reaches it and the middle stays in the slot |
| SteadySearch.OpenSearch | hardware/quartus/hps_isw_handoff/soc_system_hps_0/sequencer.c:4043-4616 | an interval with a usable phase in it is measured, and centred exactly if its first phase does not make it fail |
| SteadySearch.SteadySearch | hardware/quartus/hps_isw_handoff/soc_system_hps_0/sequencer.c:4043-4616 | for every steady interval of at least a phase tap: the search finds a centre if and only if the interval is not one of the missed ones, a condition on the interval alone; the edges are within a tap of the interval's and the middle inside, or the window begins at phase 1 |
| SteadySearch.LongIsNotMissed | hardware/quartus/hps_isw_handoff/soc_system_hps_0/sequencer.c:4043-4616 | an interval of three phase taps and a delay tap is not one of the missed ones |
| SteadySearch.LongIsCentred | hardware/quartus/hps_isw_handoff/soc_system_hps_0/sequencer.c:4043-4616 | so the search ends centred on it, with the middle inside and both edges near |
| SteadyRuns.GapIsNeverSeen | hardware/quartus/hps_isw_handoff/soc_system_hps_0/sequencer.c:4145-4192 | a run in which nothing passes is steady with every interval between the last setting of a slot and the first of the next |
| SteadyRuns.NarrowIntervalIsMissed | hardware/quartus/hps_isw_handoff/soc_system_hps_0/sequencer.c:4043-4616 | a run, with the shipped geometry, against an interval longer than a phase tap in which no read passes |
| SteadyRuns.ShortWindowIsMissed | hardware/quartus/hps_isw_handoff/soc_system_hps_0/sequencer.c:4320-4377 | a run, with the shipped geometry, that measures an interval of two phase taps, moves the begin edge to a failing setting and ends without a passing read |
| LatencyLoops.PassingRunIsUnique | hardware/quartus/hps_isw_handoff/soc_system_hps_0/sequencer.c:6161-6177 | the lower end of the passing run is determined by the test |
| LatencyLoops.ReadLatency.CalibrateLfifo | hardware/quartus/hps_isw_handoff/soc_system_hps_0/sequencer.c:6143-6219 | ends one above the lowest latency of the unbroken passing run below the start; fails exactly when the start fails |
| LatencyLoops.IdleLoops.RunLoop1 | hardware/quartus/hps_isw_handoff/soc_system_hps_0/sequencer.c:2030-2067 | one counter idles once more than its value |
| LatencyLoops.IdleLoops.RunLoop2 | hardware/quartus/hps_isw_handoff/soc_system_hps_0/sequencer.c:2049-2079 | nested counters idle the product of one more than each |
| LatencyLoops.IdleLoops.DelayForMemClocks | hardware/quartus/hps_isw_handoff/soc_system_hps_0/sequencer.c:2019-2088 | waits at least the request for every request that does not overflow: exactly the controller clocks needed up to 256, then the least multiple of 256, or of 65536, that is enough; no counter loses a bit |
| CorrectMask.AssembledBit | hardware/quartus/hps_isw_handoff/soc_system_hps_0/sequencer.c:3797-3813 | shifting the virtual groups together puts pin j of group h at bit h * w + j |
| CorrectMask.SurvivesMeansCorrect | hardware/quartus/hps_isw_handoff/soc_system_hps_0/sequencer.c:3767-3815 | a bit survives the conjunction exactly when its pin is correct in every unskipped rank |
| CorrectMask.RankBits | hardware/quartus/hps_isw_handoff/soc_system_hps_0/sequencer.c:3797-3813 | the loop from the last virtual group to the first assembles one rank's word |
| CorrectMask.RankConjunction | hardware/quartus/hps_isw_handoff/soc_system_hps_0/sequencer.c:3762-3815 | the word after any number of ranks |
| CorrectMask.CalibrateTest | hardware/quartus/hps_isw_handoff/soc_system_hps_0/sequencer.c:3750-3837 | bit for bit the pins correct in every unskipped rank; the all-bits result is their for-all, the one-bit result their exists |
| CorrectMask.CompareWords | hardware/quartus/hps_isw_handoff/soc_system_hps_0/sequencer.c:6460-6473 | comparing words with the full mask and with zero decides for-all and exists |
| GroupBank.Bank.Reset | hardware/quartus/hps_isw_handoff/soc_system_hps_0/sequencer.c:1527-1570 | the settings every group gets before calibration, masked out or not; every other register keeps its value |
| GroupBank.Bank.ZeroGroup | hardware/quartus/hps_isw_handoff/soc_system_hps_0/sequencer.c:1640-1710 | data and mask delays cleared, strobe and termination at the reserve; nothing else moves |
| GroupBank.Bank.AddOutDelay | hardware/quartus/hps_isw_handoff/soc_system_hps_0/sequencer.c:1890-1962 | the second output chain has no taps here, so the strobe and termination delays become the added amount and the data delays stay |
| GroupBank.Bank.SpreadInputs | hardware/quartus/hps_isw_handoff/soc_system_hps_0/sequencer.c:5044-5068 | a staircase of data delays that stays inside the chain |
| GroupBank.Bank.Search | hardware/quartus/hps_isw_handoff/soc_system_hps_0/sequencer.c:5044-5082 | the search starts from the slot the pointer stands at, with the data delays in a staircase; slot, phase and delay are those of its last test, on success the centre's; the data delays are cleared after it |
| GroupBank.Bank.CenterReads | hardware/quartus/hps_isw_handoff/soc_system_hps_0/sequencer.c:5939-5952 | read centering of the group's own registers: with all windows seen, strobe and pins are where centering puts them, else strobe and pins are as before; good exactly if every pin shows a window and ends inside it; with edges in order, exactly if every right edge can be reached; the first pin without a window is named |
| GroupBank.Bank.CenterWrites | hardware/quartus/hps_isw_handoff/soc_system_hps_0/sequencer.c:7228-7765 | write centering of the group's own pins and mask: every pin at its clamped centre, the mask balanced, the termination delay with the strobe; good exactly if no window lies wholly right of position 0, and the mask then passes; without all windows the mask is untouched and the strobe stays where the sweep stopped; the first pin without a window is named |
| GroupBank.ProgramsBalanced | hardware/quartus/hps_isw_handoff/soc_system_hps_0/sequencer.c:5353-5379 | in every record a pin whose delay is not at an end of its chain has both edges of its window equally far away, to one tap |
| GroupBank.MissingEdge | hardware/quartus/hps_isw_handoff/soc_system_hps_0/sequencer.c:5274-5298 | a sweep misses an edge exactly if some pin is windowless in the eye it faced |
| Calibration.Calibrator.SetFailingGroupStage | hardware/quartus/hps_isw_handoff/soc_system_hps_0/sequencer.c:591-611 | the first error is recorded, whole, and never overwritten |
| Calibration.Calibrator.CenterAttempt | hardware/quartus/hps_isw_handoff/soc_system_hps_0/sequencer.c:5931-5952 | centering starts from the original strobe delay and stands in the registers; an error is recorded exactly when a pin has no window, and it is the number of the first such pin |
| Calibration.Calibrator.OneAttempt | hardware/quartus/hps_isw_handoff/soc_system_hps_0/sequencer.c:5853-5985 | one attempt, true to its own verdicts and eye: searched at the strobe delay it is given, from the slot the one before left, and centered from the original strobe delay; it succeeds exactly if the search is centred and, unless skipped, every pin ends inside its window; what it leaves in the registers, in the error record, and which substage a failure stands for |
| Calibration.Calibrator.TryStrobes | hardware/quartus/hps_isw_handoff/soc_system_hps_0/sequencer.c:5844-5985 | the n-th attempt of a pass searches n taps beyond the original strobe delay and centers from that; tried in turn until the first good attempt, or to the end of the chain; what the pass leaves in the registers; the error record exactly |
| Calibration.Calibrator.TryDelay | hardware/quartus/hps_isw_handoff/soc_system_hps_0/sequencer.c:5794-5985 | one output delay: one guaranteed read, and a pass over the strobe delays exactly if it succeeds |
| Calibration.Calibrator.DtapsPerPtap | hardware/quartus/hps_isw_handoff/soc_system_hps_0/sequencer.c:5770-5780 | the output delays tried reach up to the number of whole delay taps below a phase tap |
| Calibration.Calibrator.CalibrateVfifo | hardware/quartus/hps_isw_handoff/soc_system_hps_0/sequencer.c:5748-6005 | output delays 0, 2, 4 and so on are visited in turn, each with the next guaranteed read and from the strobe delay and slot the one before left; a visit is a full pass over the strobe delays unless its guaranteed read fails; passes if and only if some attempt succeeds, which is the last one and in force; a failure has visited every other output delay up to a phase tap; the error record exactly: the first pin without a window, or the group with the substage of the last attempt, the guaranteed read if there was none; a pass leaves the output side at the reserve, a failure at the last delay tried |
| Calibration.Calibrator.CompleteIs | hardware/quartus/hps_isw_handoff/soc_system_hps_0/sequencer.c:5794 | how many output delays a failure has visited is fixed by the geometry: half the delay taps of a phase tap, and one |
| Calibration.Calibrator.CalibrateWrites | hardware/quartus/hps_isw_handoff/soc_system_hps_0/sequencer.c:8133-8155 | fails exactly with the centering; the error recorded is the first pin without a window, or the group if all have one |
| Calibration.Calibrator.CalibrateVfifoEnd | hardware/quartus/hps_isw_handoff/soc_system_hps_0/sequencer.c:6091-6137 | the same for read centering after the writes, from the strobe delay read calibration left |
| Calibration.Calibrator.OutputSide | hardware/quartus/hps_isw_handoff/soc_system_hps_0/sequencer.c:9272-9321 | write and final read centering in turn: the second is reached exactly if the first is good; passed exactly if both are, and each stands in the registers |
| Calibration.Calibrator.CalibrateGroup | hardware/quartus/hps_isw_handoff/soc_system_hps_0/sequencer.c:9206-9377 | a group fails exactly if one of its stages does; each attempt's search and centering, write centering and final read centering start from the strobe delays and slot the stages before left; in every outcome the registers are as the last stage to touch them left them, and the error record is the first error of its stages |
| Calibration.Calibrator.NextGroup | hardware/quartus/hps_isw_handoff/soc_system_hps_0/sequencer.c:9206-9377 | the registers of all other groups keep their values, and no register comes to belong to two groups |
| Calibration.Calibrator.OneGroup | hardware/quartus/hps_isw_handoff/soc_system_hps_0/sequencer.c:9206-9377 | so what is known of the groups before stays true of their registers, and the group's own run is added to it |
| Calibration.Calibrator.TallyGroup | hardware/quartus/hps_isw_handoff/soc_system_hps_0/sequencer.c:9374-9377 | one more group: which groups were reached, with which attempts and guaranteed reads; the count of failures is zero exactly while every unmasked group passed; the error record is the first error of the groups in turn |
| Calibration.Calibrator.GaveUp | hardware/quartus/hps_isw_handoff/soc_system_hps_0/sequencer.c:9246-9318 | once the driver gave up, no later group is reached |
| Calibration.Calibrator.CalibrateGroups | hardware/quartus/hps_isw_handoff/soc_system_hps_0/sequencer.c:9206-9397 | exactly the unmasked groups up to the first failure, or all of them if told to go on, are calibrated, in order and numbered through; every other group keeps every register; no failure exactly if every unmasked group passed; the error record is their first error |
| Calibration.Calibrator.RunErrorIs | hardware/quartus/hps_isw_handoff/soc_system_hps_0/sequencer.c:591-611 | the error a group leaves: a stage of it and the group or its pin if it failed; after a pass a pin of its read centering, or none if no attempt met a pin without a window |
| Calibration.Calibrator.ZeroAll | hardware/quartus/hps_isw_handoff/soc_system_hps_0/sequencer.c:1527-1570 | every group is reset and nothing else moves |
| Calibration.Calibrator.MemCalibrate | hardware/quartus/hps_isw_handoff/soc_system_hps_0/sequencer.c:9149-9437 | returns true exactly if everything is skipped or every unmasked group passed all its stages and the latency search passed or the mask is set; which groups were calibrated, what each of them went through, numbered over the whole run, and what that left in its registers, in every outcome; the error record is the first error of all; after a true return it is empty if and only if no attempt met a pin without a window, else it names such a pin; after a false one it names a failing unmasked group, its pin or the latency search; groups not calibrated keep everything but the reset |
| Calibration.Calibrator.PassedMeansInside | hardware/quartus/hps_isw_handoff/soc_system_hps_0/sequencer.c:9206-9377 | for every unmasked group after a true return: the DQS-enable slot, phase and delay in force are those of its latest read test, which was made at the centre and passed; every data pin, in both directions, and the mask are inside the windows measured for them, and each whose delay is not at an end of its chain is in the middle to one tap |
| Calibration.Calibrator.OpenRunPasses | hardware/quartus/hps_isw_handoff/soc_system_hps_0/sequencer.c:5844-5985 | on streams where only the first attempt faces a closed eye the group passes, and that attempt misses a window |
| Calibration.Calibrator.RunSingleGroup | hardware/quartus/hps_isw_handoff/soc_system_hps_0/sequencer.c:9149-9437 | on those streams the entry point returns true with the number of a pin of the group on record |
| Calibration.PassedWithErrorOnRecord | hardware/quartus/hps_isw_handoff/soc_system_hps_0/sequencer.c:9149-9437 | a run of the entry point with the shipped limits, 16 VFIFO slots and guaranteed reads on, that returns true and leaves a pin's read centering on record |
| DescriptorPool.Msgdma.Reserve | software/driver/dma/original/altera-msgdma.c:342-348 | reserves exactly when the counter allows, and changes nothing else |
| DescriptorPool.Msgdma.GetDescriptor | software/driver/dma/original/altera-msgdma.c:210-223 | takes the first free descriptor and is the machine's take |
| DescriptorPool.Msgdma.FreeDescriptor | software/driver/dma/original/altera-msgdma.c:230-241 | head and children go to the end of the free list and are counted |
| DescriptorPool.Msgdma.TxSubmit | software/driver/dma/original/altera-msgdma.c:304-319 | the next cookie, and the transaction at the end of pending |
| DescriptorPool.Msgdma.CopyDescToFifo | software/driver/dma/original/altera-msgdma.c:496-543 | the hardware is given the head and then its children |
| DescriptorPool.Msgdma.StartTransfer | software/driver/dma/original/altera-msgdma.c:549-563 | when idle with something pending: all pending becomes active, the first chain is copied, and the device is busy; otherwise nothing changes |
| DescriptorPool.Msgdma.CompleteDescriptor | software/driver/dma/original/altera-msgdma.c:608-619 | the oldest active transaction becomes done and its cookie the completed one |
| DescriptorPool.Msgdma.IrqHandler | software/driver/dma/original/altera-msgdma.c:729-749 | an idle hardware is started again |
| DescriptorPool.TakeNeverFails | software/driver/dma/original/altera-msgdma.c:210-223 | a reserved descriptor is on the free list when it is taken |
| DescriptorPool.StepConserves | software/driver/dma/original/altera-msgdma.c:210-720 | no event creates or loses a descriptor, or puts one in two places |
| DescriptorPool.StepCounts | software/driver/dma/original/altera-msgdma.c:342-368 | the free list is always as long as the counter plus what is reserved and not yet taken |
| DescriptorPool.StepOrders | software/driver/dma/original/altera-msgdma.c:549-619 | the submitted log is always retired, callback, done, active and pending in that order, and the saved cursor stays the first done transaction across the unlocked callback |
| DescriptorPool.StepKeepsInv | software/driver/dma/original/altera-msgdma.c:210-749 | every event keeps the whole invariant |
| DescriptorPool.InitInv | software/driver/dma/original/altera-msgdma.c:653-676 | it holds once the pool is allocated |
| DescriptorPool.RunKeepsInv | software/driver/dma/original/altera-msgdma.c:210-749 | in every interleaving each descriptor is in exactly one place and no empty list or stale cursor is dereferenced |
| DescriptorPool.StepAdvances | software/driver/dma/original/altera-msgdma.c:583-619 | the completed cookie advances by at most one and never goes back |
| DescriptorPool.WhoChangesWhat | software/driver/dma/original/altera-msgdma.c:496-563 | which events change the idle flag, the hardware and the lists: a start, and nothing else, makes the device busy and moves what is pending; only an interrupt that finds it idle makes it idle |
| DescriptorPool.BusyIsNotStarted | software/driver/dma/original/altera-msgdma.c:522 | until an interrupt finds it idle, a busy device is not started and the hardware is given nothing |
| DescriptorPool.StartsAlternate | software/driver/dma/original/altera-msgdma.c:549-563 | in every run, between any two starts there is an interrupt that finds the device idle |
| DescriptorPool.ResponsesComplete | software/driver/dma/original/altera-msgdma.c:683-720 | each response completes one transaction if one is active, and nothing else completes any |
| DescriptorPool.NoMoreThanResponses | software/driver/dma/original/altera-msgdma.c:683-720 | in every run no more transactions are completed than there were responses |
| DescriptorPool.FreeIsQueue | software/driver/dma/original/altera-msgdma.c:210-241 | a client is refused exactly if the counter is too small, and then nothing changes; descriptors are taken from the front of the free list and returned to its end |
| DescriptorPool.ClientsKeepTheirs | software/driver/dma/original/altera-msgdma.c:304-368 | a transaction is made of the descriptors its client took, in that order, and submitted as it is; no event of one client changes what another holds |
| DescriptorPool.CompletionInOrder | software/driver/dma/original/altera-msgdma.c:682-720 | after any run the retired transactions are a prefix of the submitted ones, each at most once |
| DescriptorPool.StepFeedsHardware | software/driver/dma/original/altera-msgdma.c:549-563 | a step keeps the hardware up to date unless it starts several transactions at once, and then it falls behind for good |
| DescriptorPool.HardwareGetsEverythingIff | software/driver/dma/original/altera-msgdma.c:549-563 | over any run the hardware was given every activated chain if and only if each start found one pending transaction |
| DescriptorPool.RetiredWithoutTransfer | software/driver/dma/original/altera-msgdma.c:561-562 | a run in which a transaction is retired whose descriptor the hardware never got |
| DescriptorPool.OvertakeOverpromises | software/driver/dma/original/altera-msgdma.c:418-449 | a descriptor taken beyond the reservation is one more that counter and reservations promise and the list does not hold; the taker itself faults exactly on the empty list |
| DescriptorPool.PromiseStays | software/driver/dma/original/altera-msgdma.c:210-749 | no event changes by how much the pool is overpromised, the return of descriptors included |
| DescriptorPool.PromiseStaysOverRuns | software/driver/dma/original/altera-msgdma.c:210-749 | nor does any run |
| DescriptorPool.TakeFaultsIff | software/driver/dma/original/altera-msgdma.c:210-223 | a client that takes what it reserved meets the empty list exactly if all that is promised is what is not there |
| DescriptorPool.OvertakingFaultsAnother | software/driver/dma/original/altera-msgdma.c:418-449 | a run in which one prep takes one descriptor too many and another client, within its reservation, meets the empty list |
| DescriptorSplit.SplitTiles | software/driver/dma/original/altera-msgdma.c:331-375 | the pieces tile the range in order, none empty, all but the last of the maximum, and there are as many as the reserved count |
| DescriptorSplit.SplitAllCount | software/driver/dma/original/altera-msgdma.c:400-404 | the same count for a list of entries |
| DescriptorSplit.PrepMemcpy | software/driver/dma/original/altera-msgdma.c:331-375 | source and destination are cut alike, only the last descriptor interrupts, taken equals reserved exactly when the length is not zero; a copy of length 0 is one empty descriptor |
| DescriptorSplit.CountDescriptors | software/driver/dma/original/altera-msgdma.c:400-402 | the descriptors the entries need |
| DescriptorSplit.FillDescriptors | software/driver/dma/original/altera-msgdma.c:411-452 | the loop covers each entry it visits once and in order, with the device's register on the other side of every descriptor, and terminates |
| DescriptorSplit.PrepSlaveSg | software/driver/dma/original/altera-msgdma.c:387-459 | memory side covered in order, the other side the device's register and as many bytes, only the last descriptor interrupts, taken equals reserved exactly when the list ends after the given number of entries |
| DescriptorSplit.TakenVersusReserved | software/driver/dma/original/altera-msgdma.c:438-452 | the count differs exactly when there is an entry beyond the given number |
| RasterImages.TileAt | tests/run_convolution_tb.py:69-73 | a tile is an image of its own whose pixel (y, x) is the plane's at the offset |
| RasterImages.BlocksAt | tests/run_convolution_tb.py:50-60 | the blocks of a grid begin at every multiple of the step down and across, row by row |
| RasterImages.BlocksLength | tests/run_convolution_tb.py:50-60 | a grid has as many blocks as steps fit down times steps across, rounded up |
| RasterImages.PixelInOneBlock | tests/run_convolution_tb.py:50-60 | every pixel of the plane lies in exactly one block of the grid |
| ConvolutionTiling.TapReadsAlike | tests/run_convolution_tb.py:57-73 | a tap within the halo reads the same from tile and plane, zero padding included |
| ConvolutionTiling.TileConvolvesAlike | tests/run_convolution_tb.py:57-73 | inside its core a tile convolves to what the whole plane convolves to, for every kernel |
| ConvolutionTiling.ConvolveBlock | tests/run_convolution_tb.py:97-102 | the outputs of a run on an image that fits the block, in raster order |
| ConvolutionTiling.OneMorePixel | tests/run_convolution_tb.py:107-109 | one assignment finishes one pixel and disturbs no other |
| ConvolutionTiling.CopyCore | tests/run_convolution_tb.py:106-109 | the core's pixels are finished, each written once |
| ConvolutionTiling.RunTile | tests/run_convolution_tb.py:61-109 | the job is the core with its halo; it fits the block and lies in the plane; a run without output is reported and changes nothing |
| ConvolutionTiling.RunChannel | tests/run_convolution_tb.py:36-111 | the jobs are exactly the grid of cores, each with its halo, in order; success exactly when there is a core and every job of the grid works, failure ends with the first that does not; the result is the zero-padded convolution of the whole plane, every pixel written exactly once, no tile over the limit |
| ConvolutionTiling.OneMoreJob | tests/run_convolution_tb.py:50-95 | a job is added for the next core of the grid, and the first that does not work decides |
| PoolingTiling.WindowFits | tests/run_pooling_tb.py:40-48 | the output count is exact: window k fits if and only if k is below it |
| PoolingTiling.TileStaysInside | tests/run_pooling_tb.py:53-61 | a tile of the chosen outputs lies in the image, fits the block and pools to exactly that many outputs |
| PoolingTiling.RowsAreTile | tests/run_pooling_tb.py:63-66 | cutting row slices of interleaved values cuts a tile of pixels |
| PoolingTiling.CutTile | tests/run_pooling_tb.py:62-66 | the slices the loop collects are the tile |
| PoolingTiling.TilePoolsAlike | tests/run_pooling_tb.py:53-66 | tile windows are global windows, so the tile pools to the image's values |
| PoolingTiling.SpotInSlice | tests/run_pooling_tb.py:96-104 | a slice holds exactly the values of its row and columns |
| PoolingTiling.SlicePlaced | tests/run_pooling_tb.py:101-104 | one slice assignment finishes its pixels and disturbs no other |
| PoolingTiling.SliceOfTile | tests/run_pooling_tb.py:96-104 | a row slice of the tile's results is that row of the whole pooling |
| PoolingTiling.PoolBlock | tests/run_pooling_tb.py:86-89 | the outputs of a run on a tile that fits the block, interleaved |
| PoolingTiling.PlaceTile | tests/run_pooling_tb.py:95-104 | the tile's pixels are finished, each written once |
| PoolingTiling.PoolTile | tests/run_pooling_tb.py:53-104 | the job is the tile of the chosen outputs and one the block accepts, and its results are placed; a run without output changes nothing |
| PoolingTiling.PoolImage | tests/run_pooling_tb.py:35-104 | the jobs are exactly the grid of output blocks, in order; success exactly when every job of the grid works, failure ends with the first that does not; the result is the pooling of the whole image with every value written exactly once, for every size, stride and channel count; when the window exceeds the block, a refusal or a result of zeros |
| PoolingTiling.NoTileRuns | tests/run_pooling_tb.py:35-104 | a run with a block too small for the window by more than the stride: it succeeds without a tile, and the zero it returns is not the pooling of the image unless that is zero |
| DataInterface.StoredWhere | hardware/hdl/neurax_data_interface.vhd:186-258 | a run of words of any length: the last lap's worth is found where its position says and untouched cells keep their word |
| DataInterface.StoredFromReset | hardware/hdl/neurax_data_interface.vhd:186-258 | after a marker, words that fit are the front of the RAM and the rest is unchanged |
| DataInterface.MarkersRewind | hardware/hdl/neurax_data_interface.vhd:264-267 | markers store nothing, and one is enough for the next word to go to address 0 |
| DataInterface.SinkRun | hardware/hdl/neurax_data_interface.vhd:186-310 | over every run the RAM and write pointer are what the taken beats make them, whatever is being read |
| DataInterface.IdleTakesAll | hardware/hdl/neurax_data_interface.vhd:203-207 | while nothing is commanded, or only empty packets, every arriving beat is taken in its first cycle |
| DataInterface.CommandTaken | hardware/hdl/neurax_data_interface.vhd:273-291 | a command is latched whole |
| DataInterface.SendingStep | hardware/hdl/neurax_data_interface.vhd:221-325 | each cycle sends at most the next beat of the packet and leaves the RAM alone |
| DataInterface.OfferedIsStable | hardware/hdl/neurax_data_interface.vhd:221-240 | a beat that is not taken does not change |
| DataInterface.PacketRun | hardware/hdl/neurax_data_interface.vhd:262-325 | under any readiness the beats sent are the commanded packet from its start, each once and in order |
| DataInterface.PacketFinishes | hardware/hdl/neurax_data_interface.vhd:299-325 | enough ready cycles, however spread, finish the packet |
| DataInterface.CommandedPacket | hardware/hdl/neurax_data_interface.vhd:262-325 | a command delivers exactly its stretch of RAM, framed by one start and one end |
| DataInterface.DoneOnce | hardware/hdl/neurax_data_interface.vhd:242-244 | a packet is reported done in exactly one cycle, and not before its last beat has left |
| DataInterface.DataPort.Clock | hardware/hdl/neurax_data_interface.vhd:203-325 | the registers after an edge are the step all of this is proved about; the beats taken and sent are those the ready, valid, data and framing signals show |
| UioTransfer.WordsOfParts | software/driver/uio/neurax_uio_test_conv.c:325-336 | cutting after whole words does not change the words |
| UioTransfer.PaddingIsZeros | software/driver/uio/neurax_uio_test_conv.c:330-334 | padding the buffer with zeros pads only the last word |
| UioTransfer.ChunkLength | software/driver/uio/neurax_uio_test_conv.c:326-331 | every chunk is positive and fits when padded; only the last may end inside a word |
| UioTransfer.CoversDisjointly | software/driver/uio/neurax_uio_test_conv.c:647-660 | consecutive descriptors have disjoint destinations inside the buffer |
| UioTransfer.FetchesCover | software/driver/uio/neurax_uio_test_conv.c:647-660 | the chunks of the readback follow one another and end with the last word |
| UioTransfer.CommandFields | software/driver/uio/neurax_uio_test_conv.c:416 | the hardware's fields of a read command are the start and count that were packed |
| UioTransfer.OneMoreChunk | software/driver/uio/neurax_uio_test_conv.c:325-368 | a chunk, or the part of it that moved, continues the words already stored |
| UioTransfer.Link.PushOutgoing | software/driver/uio/neurax_uio_test_conv.c:270-275 | what a descriptor streams: a marker that arrives resets the pointer, payload is stored, a failure moves a prefix |
| UioTransfer.Link.SendMarker | software/driver/uio/neurax_uio_test_conv.c:270-288 | the marker fails on a timeout only; the pointer is reset exactly if it arrived |
| UioTransfer.Link.Stage | software/driver/uio/neurax_uio_test_conv.c:332-334 | the buffer's words are the chunk's padded words |
| UioTransfer.Link.SendPiece | software/driver/uio/neurax_uio_test_conv.c:325-368 | one descriptor continues the image in RAM, as many words as moved; its length is the padded chunk's |
| UioTransfer.Link.SendChunks | software/driver/uio/neurax_uio_test_conv.c:325-368 | the descriptors are the chunks of the buffer in turn, each as long as the DMA accepts; success exactly when every one was sent, and then the RAM is as after one descriptor; a failure ends with the first that was not, the ones before it whole in the RAM |
| UioTransfer.Link.DmaWrite | software/driver/uio/neurax_uio_test_conv.c:315-371 | success exactly if the marker does not time out and every descriptor the bytes need is sent: RAM and pointer as if the padded bytes came in one descriptor from where the marker left the pointer, which are the promised RAM and pointer if and only if the marker arrived or the pointer stood at 0; on a failure exactly the words before the first descriptor that was not sent, and what of it had moved; the marker and the chunks in turn, each as long as the DMA accepts |
| UioTransfer.StartDecides | software/driver/uio/neurax_uio_test_conv.c:315-371 | two writes of the same words end in the same RAM and pointer exactly if they start at the same pointer |
| UioTransfer.StoppedMarkerMisplaces | software/driver/uio/neurax_uio_test_conv.c:315-371 | two writes in turn, the second one's marker stopped: it reports success and its image lies behind the first one's |
| UioTransfer.Link.ReadChunk | software/driver/uio/neurax_uio_test_conv.c:411-457 | success: the chunk of RAM is at its place in the receive buffer and nothing else changed |
| UioTransfer.OneMoreRead | software/driver/uio/neurax_uio_test_conv.c:647-660 | a chunk that has come back extends what has come back before |
| UioTransfer.Link.ReadAll | software/driver/uio/neurax_uio_test_conv.c:647-660 | success exactly if every chunk comes back: the receive buffer is the RAM word for word; descriptors cover the buffer's front without gap or overlap, each as long as the DMA accepts; a failure ends with the first chunk that does not, the ones before it in the buffer |
| UioTransfer.Link.WriteImage | software/driver/uio/neurax_uio_test_conv.c:600-608 | ok exactly if the marker does not time out and every descriptor is sent; a written image is the front of the RAM and the rest is unchanged, if the marker arrived or the pointer stood at 0 |
| UioTransfer.Link.RunImage | software/driver/uio/neurax_uio_test_conv.c:600-670 | ok exactly if every descriptor of the image is sent and every chunk comes back; what comes back is the RAM the write left with the accelerator's results in place; if the marker arrived or the pointer stood at 0, that is the image that went out |
| EdgeImage.EdgeTaps | software/driver/uio/neurax_uio_test_conv.c:574-578 | the nine taps of the edge table reduce to centre and neighbours |
| EdgeImage.EdgeFormula | software/driver/uio/neurax_uio_test_conv.c:522-530 | for every image and position the direct formula is the block's Q24.8 convolution, with no step leaving 32 bits and no saturation |
| EdgeImage.WindowInside | software/driver/uio/neurax_uio_test_conv.c:520-530 | an output position reads only inside the image |
| EdgeImage.ExpectedIsNotSentinel | software/driver/uio/neurax_uio_test_conv.c:683-697 | no expected word looks like an output that was never written |
| EdgeImage.ByteSwapReverses | software/driver/uio/neurax_uio_test_conv.c:63-69 | the four byte lanes are reversed |
| EdgeImage.ByteSwapTwice | software/driver/uio/neurax_uio_test_conv.c:63-69 | swapping twice gives the word back |
| EdgeImage.ByteSwapInjective | software/driver/uio/neurax_uio_test_conv.c:63-69 | no two words swap to the same |
| EdgeImage.SwapAndShift | software/driver/uio/neurax_uio_test_conv.c:584-586 | in place, word w ends swapped at w - 1 for all w from 1, and the last word is zero |
| EdgeImage.BuildImage | software/driver/uio/neurax_uio_test_conv.c:569-586 | swapping back what is at w - 1 gives word w of the logical image: pixels, kernel, zero bias, sentinels |
| EdgeImage.CheckOutputs | software/driver/uio/neurax_uio_test_conv.c:680-701 | every output is counted once, and the check passes exactly when every output is its swapped expected word and none equals the sentinel |
| StreamStage.NothingLost | hardware/hdl/st.vhd:52-83 | for every run, held plus accepted beats are the delivered beats plus the held one |
| StreamStage.SinceReset | hardware/hdl/st.vhd:68-83 | since reset, accepted is delivered followed by at most one held beat |
| StreamStage.StalledIsStable | hardware/hdl/st.vhd:52-83 | a beat that is not taken stays unchanged however long, and nothing is accepted behind it |
| StreamStage.ClosedSideTakesOne | hardware/hdl/st.vhd:52-83 | an empty stage takes the first beat offered even to a side that is never ready, and no second one |
| StreamStage.QueueCrosses | hardware/hdl/st.vhd:52-83 | a producer's queue crosses in order, in every pattern of offers and readiness |
| StreamStage.WillingCyclesDrain | hardware/hdl/st.vhd:52-83 | one willing cycle more than there are beats empties queue and stage |
| StreamStage.EverythingArrives | hardware/hdl/st.vhd:52-83 | and delivers every beat once and in order |
| StreamStage.StageRegisters.Clock | hardware/hdl/st.vhd:52-83 | the ready rule and the registers after an edge |

## Left out

- DRAM command sequences, ODT masks, real time, mode registers and the read and write tests themselves: an oracle answers each test.
- Compiled-out memory types and quick calibration of the sequencer, write leveling (skipped on this device), reports, and figures of merit.
- One shadow register set and one read group per write group, as configured; the single-pass output phase loop of read calibration is not shown as a loop.
- Words of test results are sequences of booleans, not machine words; the range of bit positions is the word width.
- DqsEnable.EnableSearch.FindDqsEnPhase: delays are unbounded sums, so a wrap of the unsigned 32-bit accumulators is not modelled; the shipped limits stay far below it. Phases above the last are not modelled for a group whose last phase is 0.
- SteadySearch.SteadySearch: intervals shorter than a phase tap, and copies of the interval closer than two slots, are not characterised. A window that begins at phase 1 need not have its begin edge near the interval's; its edges are stated as measured.
- LatencyLoops.IdleLoops.DelayForMemClocks: a request within one ratio of 2^32 clocks, whose rounding up wraps, is outside the model; the simulation-only option that shortens the counters is off.
- GroupBank: the second output chains, which have no taps in this configuration, the input delays of the mask and of the write strobe, and the loading of delays from the register file into the chains.
- GroupBank.Bank.Search: the verdicts of a search do not depend on the data delays, so that the staircase is in force while it tests shows only in the delays that are returned.
- Calibration: a test's eye does not depend on the delays set before it; instead every attempt and every later stage of a group faces an arbitrary eye of its own. The outcomes of guaranteed reads and of the latency search are given; the search itself is in LatencyLoops.
- Calibration.Calibrator.MemCalibrate: the repetition count is one, as configured; with everything skipped the instant-on settings are not modelled.
- DescriptorPool: the run ends before teardown, which re-adds list nodes without unlinking them. Cookies do not wrap; the cookie code belongs to the Linux kernel and is not part of this model. Waiting for room in the hardware descriptor FIFO and the descriptor words themselves are left out.
- DescriptorPool.Msgdma.FreeDescriptor: lists are sequences, so the pointers of a linked list and its node sharing are not modelled.
- DescriptorSplit.PrepSlaveSg: entries are not empty and the list is at least as long as the count, as the driver's callers guarantee; the round-up is computed without wrapping.
- ConvolutionTiling.RunChannel: the kernel side is one more than twice the padding and the stride is 1, as in the script; file formats and the simulator are left out, and a run of the block either gives its outputs or none.
- PoolingTiling.PoolImage: the block's outputs are given by a function of each window; a run gives all outputs or none.
- UioTransfer: waits end in an arbitrary outcome instead of a timeout; addresses are not truncated to 32 bits; the register accesses around a transfer, the mapping of buffers and the observed first-word fault of the board are left out.
- DataInterface: the second RAM port is idle while a packet is sent, and its registered read path is left out.
- EdgeImage: the accelerator's pipeline is a sum over the window; signed words are integers except where bytes are swapped.
- The convolution, pooling and activation blocks, the register file, device discovery, the character-device driver and the earlier user-space programs.
