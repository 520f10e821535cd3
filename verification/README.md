# A verified model of the beam position monitor firmware

The firmware digitises four pick-up signals of a storage ring, turns them into one
magnitude and phase per turn and channel, averages turns into fast and slow data, captures
bursts on a trigger, stamps them with the time decoded from an event link, and hands
everything to network clients. This project models the parts of it that carry state and
arithmetic, and proves what they promise over every input, every run and every trigger
timing. `dafny verify dfyconfig.toml` checks all of it.

How the model is laid out:

- Every clocked module is a datatype `Regs` of its registers, a function `Next` for one
  rising edge (all registers from their values before the edge), and a class whose `Clock`
  method updates the register fields the way the processes of the source do and is proved
  to take exactly that step. Laws are lemmas about `At`, the registers after n edges of an
  arbitrary input stream.
- The C code is methods with the loops of the source on buffers, sockets and tables, proved
  against functions on byte sequences and on abstract runs.
- Register widths are explicit: `Bits.Signed` is the two's complement reading of a register,
  unsigned counters are taken modulo their range, and absence of wrap-around is a theorem
  wherever it is claimed.

The modules, from the signal to the client:

| files | what they model |
|---|---|
| Bits, Cordic, AngleTable, SeqPolar | the sequential rectangular-to-polar converter: pure loop with its magnitude and quarter-turn laws, its angle table, and the clocked machine that refines it |
| FirLpDdc, BeamDdc | mixers, 4-tap filter, turn accumulators and the converter behind them |
| BlockAverage, DspCntrl, TurnTriggers, Lockstep | block averagers, turn triggers, gate, dividers and booster pulses, and which block a publication shows |
| SyncCdc, TrigLogic, TurnWriters, AdcWriter, Handshake | trigger gate, burst writers, and the capture protocol with the polling host |
| DmaData | burst lengths, capture memory and the conversion into messages |
| EventTime, TsGen, EpochClock, TimeLink, EventChannel | the time-of-day link, the timestamp, and the delayed event pulses |
| RecvResults, PscMsg, Listener | message framing over a byte stream, the client table and the broadcasts |

Where the source and its own comments disagree, the model follows the code:

- `seqpolar.v:287` announces rounding to even, but the slice taken at line 297 is one bit
  lower than that rounding was made for, so the output is rounded up
  (`Cordic.OutMagRounds`). Inputs longer than about 326 million wrap to a negative magnitude
  (`Cordic.PublishedMagnitude` gives the thresholds on both sides).
- `seqpolar.v` accepts a strobe only while idle; one that meets the last state keeps the
  converter busy without being converted (`SeqPolar.LateStrobeLost`).
- `trig_logic.vhd` synchronises the acknowledge to a pulse and then does not use it: the latch
  is cleared by the level. The exact consequence is `Handshake.LegalExact`, and
  `Handshake.LateAcknowledge` is a run in which a capture starts onto a busy writer.
- `fa_dsp.vhd:54-60` gives the fast accumulators 37 bits, which 38 turns of 32-bit data can
  exceed (`BlockAverage.FastOverflows`). The magnitude lanes stay below
  (`BeamDdc.MagnitudeOfTurn`); the lane of the sum of four magnitudes need not.
- `pscmsg.c:70-72` asks for all that is left after a failed chunk, without what that chunk had
  already taken and in one call, although the buffer holds 128 bytes. `RecvResults.SkipLaw`
  says exactly when that consumes too much and when it writes beyond the buffer;
  `RecvResults.SkipsWellIff` and `StickySkipsWell` give the conditions under which it does neither.
- `dmadata.c:110-111` fills `rsvd` and `sum` in the order of the words, `sum` and the empty word,
  that `fa2dma.vhd:229` sends, so the fast sum is published in `rsvd` (`DmaData.FaNames`).
- `dsp_cntrl.vhd:333` loads a gate width that nothing reads (`DspCntrl.GateIsPulse`).
- `evg_top.vhd:83` names the bit codes the other way round than `ts_gen.vhd` sends them.
- `fa_dsp.vhd:51` works out 27594; the constant in use is four times that.
- `dsp_cntrl.vhd:415` compares the slow counter with 38000 where the averager counts 38000
  turns, so slow publications come every 38001 turns (`Lockstep.SlowSkips`).
- `adc2dma.vhd` writes one beat more than the burst length (`AdcWriter.Burst`).

## Model

| member | source | states |
|---|---|---|
| Cordic.PreRotateLands | src/hw/hdl/dsp/seqpolar.v:88-138 | the quadrant rotation lands within 45 degrees of the x axis, scales the squared length by exactly 512, and fits the 35-bit word, for all 29-bit inputs |
| Cordic.SpinConverges | src/hw/hdl/dsp/seqpolar.v:260-279 | after k rotations the residual is at most x / 2^k + k, and x never decreases |
| Cordic.SpinGrowth | src/hw/hdl/dsp/seqpolar.v:260-279 | after k integer rotations the squared length is the ideal one up to an error bound linear in the final x |
| Cordic.Gain2Tail | src/hw/hdl/dsp/seqpolar.v:215-219 | the squared gain of four or more rotations lies within 1e-4 of 1.3559, the square of the stated 1.1644 |
| Cordic.MagnitudeLaw | src/hw/hdl/dsp/seqpolar.v:115-279 | for all 29-bit inputs the final x is the true magnitude, the root of 1.3559 * 512 * (x^2 + y^2), within half an output unit, and the residual y is at most 34 |
| Cordic.WordsFit | src/hw/hdl/dsp/seqpolar.v:81-138 | no working value of any of the 33 rotations leaves the signed 35-bit word |
| Cordic.OutMagRounds | src/hw/hdl/dsp/seqpolar.v:287-302 | the output slice rounds up to the next unit and is negative exactly when the sum needs more than 33 bits |
| Cordic.OutMagExact | src/hw/hdl/dsp/seqpolar.v:287-302 | the exact output unit for every word: the least unit not below it, or above it in every second block of 256 |
| Cordic.PublishedMagnitude | src/hw/hdl/dsp/seqpolar.v:10-17 | the published magnitude is 0.103 times the input length within one and a half units whenever it is not negative, always so up to length 326000000, and wrapped from 326050000 on |
| Cordic.FullScaleWraps | src/hw/hdl/dsp/seqpolar.v:287-302 | a concrete wrapping input: both sums at 2^28 - 1 publish a negative magnitude |
| Cordic.MagnitudeCeiling | src/hw/hdl/dsp/seqpolar.v:287-302 | a numeric ceiling on the published magnitude for bounded inputs |
| Cordic.SpinAdvanced | src/hw/hdl/dsp/seqpolar.v:115-138 | an offset of the starting angle passes through all rotations unchanged, modulo one turn |
| Cordic.QuarterTurns | src/hw/hdl/dsp/seqpolar.v:115-138 | turning the input vector by one, two or three quarters of a revolution keeps the published magnitude and turns the published phase by just that |
| Cordic.Anchors | src/hw/hdl/dsp/seqpolar.v:115-138 | two anchors of the published phase in terms of the angle table: the zero vector and (1, 1) |
| AngleTable.TableIsArctan | src/hw/hdl/dsp/seqpolar.v:139-223 | every table angle a rotation uses is the arctangent of its shift, by the arctangent series, to within one unit of 2^-36 turns |
| SeqPolar.Converter.Clock | src/hw/hdl/dsp/seqpolar.v:106-302 | one rising edge of all registers, each read before the edge |
| SeqPolar.StaysCoherent | src/hw/hdl/dsp/seqpolar.v:224-252 | idle, pre_valid and state stay consistent over every run |
| SeqPolar.RotatesOn | src/hw/hdl/dsp/seqpolar.v:254-279 | the registered angle always belongs to the shift in use, and the wrapped registers hold the exact loop values |
| SeqPolar.Conversion | src/hw/hdl/dsp/seqpolar.v:224-302 | a strobe taken while idle gives done exactly 35 edges later and not before, with the pure loop's magnitude and phase of the inputs at the strobe, whatever is strobed meanwhile |
| SeqPolar.TurnedConversion | src/hw/hdl/dsp/seqpolar.v:224-302 | the quarter-turn law on the machine: any two conversions of vectors a quarter, half or three quarters of a turn apart, in any runs |
| SeqPolar.LateStrobeLost | src/hw/hdl/dsp/seqpolar.v:227-252 | a strobe on the last state is not converted and its values never matter |
| SeqPolar.LateStrobeEnds | src/hw/hdl/dsp/seqpolar.v:224-302 | 36 edges after a late strobe, and not before, a done pulse comes with stale words: those of the old vector rotated on, the same for any strobed values |
| FirLpDdc.Filter.Clock | src/hw/hdl/dsp/fir_lp_ddc.vhd:55-87 | one edge of taps, partial sums and output |
| FirLpDdc.TransposedIsDirect | src/hw/hdl/dsp/fir_lp_ddc.vhd:41-87 | from any contents, after six clocks the transposed pipeline equals the direct 4-tap sum divided by 2^16 and floored, with no wrap |
| FirLpDdc.DirectWithin | src/hw/hdl/dsp/fir_lp_ddc.vhd:41-43 | the output stays between the extremes of the four samples; a constant passes unchanged |
| BeamDdc.Converter.Clock | src/hw/hdl/dsp/beam_ddc.vhd:159-276 | one edge of mixers, filters, accumulators and converter |
| BeamDdc.FilteredSample | src/hw/hdl/dsp/beam_ddc.vhd:160-234 | each accumulated sample is the 4-tap filter of the mixed samples five to eight clocks back, in both arms |
| BeamDdc.ExternalSample | src/hw/hdl/dsp/beam_ddc.vhd:160-234 | with the other filter selected its output is accumulated instead |
| BeamDdc.TurnSum | src/hw/hdl/dsp/beam_ddc.vhd:239-259 | a trigger latches the plain sum of the filtered samples strictly between it and the one before; turns of up to 310 clocks do not wrap |
| BeamDdc.IdleWhenQuiet | src/hw/hdl/dsp/beam_ddc.vhd:263-276 | with triggers at least 36 clocks apart every trigger finds the converter idle |
| BeamDdc.MagnitudeOfTurn | src/hw/hdl/dsp/beam_ddc.vhd:239-292 | 36 clocks after a trigger the magnitude and phase published are those of the turn before the one just latched; the magnitude is never negative, and small enough for its lane of the fast accumulator |
| DspCntrl.Generator.Clock | src/hw/hdl/dsp_cntrl.vhd:238-423 | one edge of turn counter, booster machine, gate, gate width, pilot tone and the two dividers with their event-clock clear |
| DspCntrl.GateIsPulse | src/hw/hdl/dsp_cntrl.vhd:317-351 | the programmed gate width has no effect: over every run the gate output equals the delayed one-clock turn trigger |
| DspCntrl.BoosterLaw | src/hw/hdl/dsp_cntrl.vhd:261-292 | external pulses at least 250 clocks apart each give exactly five one-clock pulses at offsets 0, 62, 124, 186, 248, and there are no others |
| DspCntrl.BoosterEven | src/hw/hdl/dsp_cntrl.vhd:259-292 | with external period 310 the pulse train is even with period 62 |
| TurnTriggers.ExternalTurns | src/hw/hdl/dsp_cntrl.vhd:297-314 | with external triggers the turn triggers of a run are exactly the external pulses for the storage ring and the five pulses made of each for the booster, one edge later |
| TurnTriggers.InternalTurns | src/hw/hdl/dsp_cntrl.vhd:238-255 | internal turn triggers come exactly once a period |
| TurnTriggers.DividerLaw | src/hw/hdl/dsp_cntrl.vhd:357-423 | for any turn triggers the fast data are published on every 38th turn, the slow data on every 38001st, the pilot tone on every second, counted from the last clear |
| TurnTriggers.GateLaw | src/hw/hdl/dsp_cntrl.vhd:316-351 | the trigger output carries exactly the turn triggers that find the gate idle, each delayed by the programmed delay and three clocks |
| BlockAverage.Averager.Clock | src/hw/hdl/dsp/fa_dsp.vhd:116-198 | one edge of accumulator, latch, scaled output and counters |
| BlockAverage.BlockLaw | src/hw/hdl/dsp/fa_dsp.vhd:149-198 | over every run of 32-bit data the k-th latched sum is what the accumulator holds of the sum of the k-th block of consecutive turns |
| BlockAverage.BlockExact | src/hw/hdl/dsp/fa_dsp.vhd:149-198 | a latched sum is the true sum of its block if and only if that sum fits the accumulator |
| BlockAverage.BlocksCounted | src/hw/hdl/dsp/fa_dsp.vhd:165-195 | the block count is the number of blocks latched |
| BlockAverage.BlockLength | src/hw/hdl/dsp/fa_dsp.vhd:165-195 | every block after the first has exactly the stated number of turns, the first one fewer |
| BlockAverage.Conservation | src/hw/hdl/dsp/fa_dsp.vhd:165-195 | latched sums and running sum add up to all turns seen, modulo the accumulator range, and exactly when no block overflows |
| BlockAverage.FastScaling | src/hw/hdl/dsp/fa_dsp.vhd:104-141 | the 32-bit output never exceeds the true average of a non-negative block and misses it by less than one unit plus its 2^18th part |
| BlockAverage.SlowScaling | src/hw/hdl/dsp/sa_dsp.vhd:104-141 | the same for the slow averager with its coarser constant |
| BlockAverage.ScalingWithin | src/hw/hdl/dsp/fa_dsp.vhd:104-111 | the output stays in any band around zero that holds the data of the block |
| BlockAverage.ScalingWithinSlow | src/hw/hdl/dsp/sa_dsp.vhd:104-111 | the same for the slow averager |
| BlockAverage.WidthsSuffice | src/hw/hdl/dsp/sa_dsp.vhd:53-59 | every latched slow sum of 32-bit data is exact, and every latched fast sum of data up to 1808407282 |
| BlockAverage.FastOverflows | src/hw/hdl/dsp/fa_dsp.vhd:54-60 | beyond that the 37-bit fast accumulator does overflow: constant data 2000000000 latches -61438953472 for a block of 76000000000 |
| Lockstep.NoTurnLost | src/hw/hdl/dsp_cntrl.vhd:316-351 | every internal turn trigger finds the gate idle, and at most two turns are under way between divider and averager |
| Lockstep.GateDelayExact | src/hw/hdl/dsp_cntrl.vhd:316-351 | every turn passes the gate in every run if and only if the gate is over two clocks before the next turn |
| Lockstep.Shows | src/hw/hdl/dsp_cntrl.vhd:378-423 | which block every publication of either averager shows, in closed form for every run and gate delay |
| Lockstep.FastLockstep | src/hw/hdl/dsp_cntrl.vhd:378-399 | over every run, publication k of the fast data shows block k - 1: each block is published once, in order, before the next is latched |
| Lockstep.ShowsBlock | src/hw/hdl/dsp/sa_dsp.vhd:116-198 | end to end for both averagers and any 32-bit data: the sum shown is that of its block of turns, exactly if and only if it fits |
| Lockstep.FastShowsBlocks | src/hw/hdl/dsp/fa_dsp.vhd:116-198 | the sum shown by fast publication k is that of block k - 1 of the turns the averager saw |
| Lockstep.PublishedWord | src/hw/hdl/dsp/fa_dsp.vhd:104-198 | the 32-bit word on display after a publication lies in the band of the turn data and within the scaling error of the average of the block it shows |
| Lockstep.SlowSkips | src/hw/hdl/dsp_cntrl.vhd:402-423 | a block is shown by some slow publication if and only if it is not the one in 38001 that is left out; no block is shown twice and the order is kept |
| Lockstep.GateBusy | src/hw/hdl/dsp_cntrl.vhd:326-350 | a loaded gate is idle again exactly delay + 2 clocks later: the condition for taking every turn |
| SyncCdc.Synchroniser.Clock | src/hw/hdl/sync_cdc.vhd:19-30 | one edge of the shift register |
| SyncCdc.RiseIsEdge | src/hw/hdl/sync_cdc.vhd:19-34 | the pulse marks exactly the 0-to-1 steps of the input and lasts one clock |
| TrigLogic.Trigger.Clock | src/hw/hdl/trig_logic.vhd:91-168 | one edge of trigger, latch, running, done, count and timestamp |
| TrigLogic.PulseIsOneClock | src/hw/hdl/trig_logic.vhd:91-104 | the capture pulse lasts one clock and is not raised while latched |
| TrigLogic.PulseLaw | src/hw/hdl/trig_logic.vhd:91-104 | while the latch is clear each rising edge of the selected source, and nothing else, gives a capture pulse three edges later |
| TurnWriters.TurnWriter.Clock | src/hw/hdl/tbt2dma.vhd:181-271 | one edge of the burst writer |
| TurnWriters.BurstLength | src/hw/hdl/tbt2dma.vhd:181-271 | from a trigger with length L that finds the writer idle, for every data stream and turn timing, exactly 8 L beats are sent (5 L in fa2dma.vhd), tlast on the final one and on no other |
| TurnWriters.Burst | src/hw/hdl/tbt2dma.vhd:181-271 | from such a trigger, for every data stream and turn timing, the beats are the image of the L turns taken, in order, each with the data words present when its beats were written |
| TurnWriters.SteadyTurn | src/hw/hdl/tbt2dma.vhd:212-261 | a turn whose data words do not change while it is written is taken as it stands |
| TurnWriters.BurstEnds | src/hw/hdl/tbt2dma.vhd:199-261 | a turn trigger that finds the writer active is taken, so a burst ends when the beats of its L-th turn are written, and not before |
| TurnWriters.LastOnlyAtEnd | src/hw/hdl/fa2dma.vhd:233-242 | in the image tlast stands on the final beat and on no other |
| TurnWriters.Finishes | src/hw/hdl/tbt2dma.vhd:252-261 | once the last turn is taken the writer is idle after the remaining beats |
| AdcWriter.Writer.Clock | src/hw/hdl/adc2dma.vhd:164-199 | one edge of the continuous writer |
| AdcWriter.Burst | src/hw/hdl/adc2dma.vhd:164-199 | a burst of length L is exactly L + 1 beats on consecutive clocks, tlast on the last only, whatever triggers come meanwhile |
| Handshake.HostTask.Step | src/sw/src/dmadata.c:246-291 | one step of the polling loop |
| Handshake.InvAt | src/hw/hdl/trig_logic.vhd:91-168 | the five phases of a capture cover every reachable state of trigger gate, writers and host |
| Handshake.CaptureSafety | src/sw/src/dmadata.c:246-290 | over every run in which the host acknowledges no sooner than four clocks after the count and never on the clock after a pulse: one-clock pulses, never while latched and only onto idle writers; at most one capture in flight and one unreported; report k has the number of trigger k and finds its timestamp in the registers (gendata.c:84-85); the timestamp holds while latched |
| Handshake.PollReports | src/sw/src/dmadata.c:246-276 | in every legal run a poll reports every completed capture not yet reported, and goes on to process it |
| Handshake.TurnWritersRun | src/hw/hdl/tbt2dma.vhd:181-271 | the turn writers of the handshake are the burst writers with their own lengths and triggers, so their laws hold of every capture |
| Handshake.AdcWriterRuns | src/hw/hdl/adc2dma.vhd:164-199 | likewise the continuous writer |
| Handshake.LatchSurvives | src/hw/hdl/trig_logic.vhd:119-131 | the latch of a new trigger survives if and only if the acknowledge level is low on its second clock |
| Handshake.AcknowledgeBreaks | src/hw/hdl/trig_logic.vhd:119-131 | from every state with a fresh pulse, idle writers and the acknowledge high on the next clock, a still host and one more trigger edge give a pulse onto an active turn writer within five clocks |
| Handshake.LegalExact | src/hw/hdl/trig_logic.vhd:91-168 | the condition of CaptureSafety is exact: every run that was legal until it breaks the condition on the acknowledge can go on to an unsafe step within five clocks |
| Handshake.LateAcknowledge | src/hw/hdl/trig_logic.vhd:119-131 | a concrete such run from reset, onto an active converter writer |
| DmaData.LengthRegs.Arm | src/sw/src/dmadata.c:75-83 | the armed lengths hold what the writers send, with equality for turns and fast samples |
| DmaData.ClampedRequest | src/sw/src/control.c:110-154 | a requested length within the range is taken as it is, a greater one gives the greatest, a smaller one or one that reads as negative the least |
| DmaData.LengthRegs.SetDmaLen | src/sw/src/control.c:110-154 | for every 32-bit request and channel the clamped length is armed so that the burst fits |
| DmaData.ProcessTbt | src/sw/src/dmadata.c:138-163 | message i is made of the sixteen words of record i; the rest of the buffer is untouched |
| DmaData.TbtRoundTrip | src/sw/src/dmadata.c:138-179 | after a burst of L turns every one of the L messages is, byte by byte, header, count and data words of its turn in network order |
| DmaData.TbtNames | src/sw/src/dmadata.c:145-163 | each member of a message carries the quantity it is named after |
| DmaData.ProcessFa | src/sw/src/dmadata.c:95-117 | message i is made of the ten words of record i; the rest of the buffer is untouched |
| DmaData.FaRoundTrip | src/sw/src/dmadata.c:95-117 | after a burst of L fast samples every message is, byte by byte, its record in network order with words 6 and 7 exchanged |
| DmaData.FaNames | src/hw/hdl/fa2dma.vhd:212-236 | each member of a fast message carries what it is named after but two: the sum lies in rsvd, and the published sum is right if and only if it is 0 |
| DmaData.ProcessAdc | src/sw/src/dmadata.c:184-204 | message i is made of the two words of beat i |
| DmaData.AdcRoundTrip | src/hw/hdl/adc2dma.vhd:136-199 | after a burst of the converter writer message i is, byte by byte, the four channels of sample i in network order |
| EventTime.Receiver.Clock | src/hw/hdl/evr/event_rcv_ts.vhd:51-125 | one edge of the receiver; the late clear wins over a bit |
| EventTime.DelayShifts | src/hw/hdl/evr/evr_top.vhd:369-373 | a link delay only shifts the receiver's run |
| EventTime.ReceiverReads | src/hw/hdl/evr/event_rcv_ts.vhd:51-113 | after one latch event the stream alone determines every register: offset, bit place, word so far and seconds |
| EventTime.StampValue | src/hw/hdl/evr/event_rcv_ts.vhd:116-125 | the value of the 64-bit timestamp on the stream: the word of the latest latch event and the clocks since it |
| EventTime.StampStep | src/hw/hdl/evr/event_rcv_ts.vhd:79-125 | neighbouring 64-bit timestamps are in order exactly when the seconds grow at a latch and the clock count does not wrap elsewhere |
| EventTime.StreamStep | src/hw/hdl/evr/event_rcv_ts.vhd:79-125 | the same on the stream: exactly when a latch event carries a larger word than the last one, and other clocks are not 2^32 clocks behind it |
| EventTime.StampMonotone | src/hw/hdl/evr/event_rcv_ts.vhd:79-125 | with growing words and latch events at most 2^32 clocks apart the timestamp strictly increases on every clock, from any receiver state |
| TsGen.Sender.Clock | src/hw/hdl/evr/ts_gen.vhd:32-103 | one edge of the sender and of the transmit register |
| TimeLink.InvAt | src/hw/hdl/evr/ts_gen.vhd:42-100 | the joint invariant of sender, link and receiver, from a sender anywhere in a frame, including that the late clear never destroys a bit |
| TimeLink.FrameEnds | src/hw/hdl/evr/ts_gen.vhd:42-95 | every started frame puts its latch event on the link 431 clocks later |
| TimeLink.FrameOnLink | src/hw/hdl/evr/ts_gen.vhd:42-95 | the exact bytes of every frame on the link, clock by clock: tick, bits highest first, latch event, idle bytes in between |
| TimeLink.LatchIsFrame | src/hw/hdl/evr/ts_gen.vhd:42-95 | latch events are on the link exactly 431 clocks after frame starts |
| TimeLink.FrameDelivered | src/hw/hdl/evr/event_rcv_ts.vhd:51-113 | whatever states sender and receiver start in, after one latch event every frame leaves its word in the seconds register |
| TimeLink.LinkRoundTrip | src/hw/hdl/evr/event_rcv_ts.vhd:51-113 | the same through a link of any delay, with anything on it before, and a receiver in any state, also one that joins in the middle of a frame |
| TimeLink.SecondFrameDecodes | src/hw/hdl/evr/evg_top.vhd:61-92 | over such a link the first complete frame synchronises any receiver, so every later one is decoded |
| TimeLink.FarStamp | src/hw/hdl/evr/event_rcv_ts.vhd:79-125 | over a link of any delay the far timestamp is the word of the latest frame and the clocks since, starting from 0 at its latch event |
| TimeLink.FrameStep | src/hw/hdl/evr/event_rcv_ts.vhd:79-125 | neighbouring timestamps are in order exactly when frames start within 2^32 clocks and carry growing words, seen at the sender |
| TimeLink.TimestampIncreases | src/hw/hdl/evr/event_rcv_ts.vhd:79-125 | over a link of any delay, if each frame carries a larger word than the one before and starts at most 2^32 clocks after it, the far timestamp strictly increases on every clock |
| EpochClock.Clock.Tick | src/hw/hdl/evr/evg_top.vhd:109-129 | one edge of the one-second wave and the epoch counter |
| EpochClock.EpochCountsRises | src/hw/hdl/evr/evg_top.vhd:109-129 | closed form over every run: the epoch has grown by one at each rising edge of the wave and at no other time |
| EventChannel.Channel.Clock | src/hw/hdl/evr/event_rcv_chan.vhd:40-94 | one edge of the delay and width generator |
| EventChannel.PulseLaw | src/hw/hdl/evr/event_rcv_chan.vhd:40-98 | with events at least delay + width + 4 clocks apart the output is active exactly on the width + 1 clocks that start delay + 2 edges after an event, inverted by the polarity |
| EventChannel.OneRisePerEvent | src/hw/hdl/evr/event_rcv_chan.vhd:68-98 | rising edges and events correspond one to one |
| EventChannel.ZeroDisables | src/hw/hdl/evr/event_rcv_chan.vhd:96-98 | a delay or width of 0 disables the channel, and the polarity inverts it otherwise |
| PscMsg.FrameReads | src/sw/src/pscmsg.c:126-173 | a frame is read back with its body cut to the buffer, the reader standing right behind it |
| PscMsg.FrameFormat | src/sw/src/pscmsg.c:75-102 | the bytes of a frame: the letters P and S, id and length with the highest byte first, body |
| PscMsg.ParseExact | src/sw/src/pscmsg.c:126-173 | a stream yields a message if and only if it begins with the frame of one, cut to the buffer |
| PscMsg.StreamReads | src/sw/src/pscmsg.c:75-102 | any list of messages written as frames is read as the same list, each cut to the buffer, whatever incomplete rest follows |
| PscMsg.TornStreamReads | src/sw/src/pscmsg.c:146-173 | a sender that fails inside a frame loses only that frame |
| PscMsg.SendAll | src/sw/src/pscmsg.c:28-44 | under any splitting exactly a prefix goes out, all of it if and only if the result is success |
| PscMsg.RecvAll | src/sw/src/pscmsg.c:46-62 | under any splitting exactly a prefix of the next bytes comes in, all of them if and only if the result is success; the results of recv determine how it ends |
| RecvResults.SkipLaw | src/sw/src/pscmsg.c:64-73 | for all results of recv: a successful skip consumes the given number plus what a failed chunk had taken, and its last call writes beyond the 128-byte buffer if and only if a chunk failed |
| RecvResults.SkipsWellIff | src/sw/src/pscmsg.c:64-73 | the condition on the caller: a skip consumes exactly what it should and stays in its buffer under all results of recv if and only if it is of at most 128 bytes |
| RecvResults.StickySkipsWell | src/sw/src/pscmsg.c:64-73 | the condition on the socket: with errors that stick every skip of any length does so |
| RecvResults.SkipOverruns | src/sw/src/pscmsg.c:64-73 | a concrete run outside both: results 100, -1, 150, 50 for 200 bytes succeed, consume 300 and write 200 |
| PscMsg.RecvSkip | src/sw/src/pscmsg.c:64-73 | the two loops do what the function of their recv results says; without timeouts, or for at most 128 bytes, exactly the given bytes are consumed through the buffer |
| PscMsg.SendMsg | src/sw/src/pscmsg.c:75-102 | a prefix of the frame goes out, the whole frame if and only if the result is success |
| PscMsg.RecvMsg | src/sw/src/pscmsg.c:126-173 | success means the stream began with a complete message, now cut to the buffer and consumed, plus what a failed chunk of the skip had taken; the skip leaves its buffer exactly if a chunk failed, only with timeouts and behind a message over 128 bytes too long |
| PscMsg.ServeClient | src/sw/src/listener.c:208-216 | the messages handed on are always a chain in the stream that can slip only behind a message over 128 bytes too long; without such messages or without timeouts a prefix of the messages, on a faultless network all of them; the loop ends |
| PscMsg.ChainReads | src/sw/src/listener.c:208-216 | up to its first slip a chain is exactly what the stream holds |
| Listener.ApplyKeeps | src/sw/src/listener.c:55-90 | every operation of the server keeps the invariant of all connections |
| Listener.BroadcastSafety | src/sw/src/listener.c:235-271 | over every run each connection holds whole frames plus at most one proper beginning of a frame after a failure; its broadcasts are consecutive from its connection on; a client in the table is down if and only if a send to it has failed, and otherwise has every broadcast since |
| Listener.WholeWriteKeepsUp | src/sw/src/listener.c:235-256 | a send whose bytes are all accepted adds the whole frame and leaves the client up |
| Listener.OthersKept | src/sw/src/listener.c:55-90 | every operation leaves the other slots and connections alone |
| Listener.TornStays | src/sw/src/listener.c:248-253 | after a failed send nothing more is written to the connection |
| Listener.ClientReads | src/sw/src/listener.c:235-256 | the far end decodes exactly the frames that went out whole, torn connection or not |
| Listener.Server.Accept | src/sw/src/listener.c:55-76 | the lowest free slot is taken, none if all are in use; the bit mask is the set of live slots |
| Listener.Server.Leave | src/sw/src/listener.c:78-90 | the slot is freed and its bit cleared, the others kept |
| Listener.Server.Broadcast | src/sw/src/listener.c:235-256 | the loop over the slots performs the abstract broadcast for whatever the sockets accepted |
| Listener.Server.SendOne | src/sw/src/listener.c:258-271 | the abstract single send |

## Left out

- Vendor blocks are not part of this model: transceiver, clock and delay primitives, the DMA core, the divider and the 101-tap filter. Their outputs are inputs here (`extI`, `extQ`), the FIFO sink is always ready, and the link is a pure delay.
- `pos_calc.vhd`: rests on the output format of a divider block whose description is not in the repository.
- CORDIC phase: stated are its quarter turns, two anchors and the angle table; how far the published phase lies from the arctangent of the input vector is not.
- BlockAverage: one lane of the seven identical ones, with the counters they share.
- Handshake.CaptureSafety: the trigger source and the burst lengths are fixed during a run, the host acknowledges no earlier than four clocks after the count changed, and the acknowledge is low on the clock after a capture pulse (Handshake.LegalExact shows that this last condition is exact). The reports carry the timestamp registers as the status task reads them (gendata.c:84-85); when that task runs is not modelled.
- Handshake: one clock drives everything; the synchroniser inputs are arbitrary bits on it. Metastability and clock ratios are not modelled.
- TurnWriters, AdcWriter: the test patterns selected by `testdata_enb`.
- DmaData: cache maintenance and the other register writes of arming carry no state of the model.
- Lockstep: internal triggers only.
- DspCntrl: synchronisers of the external inputs and the selection of the published divider outputs. The clear of the dividers (evrsync_cnt) is an input of the model; the design ties it to '0' (top.vhd:431), and so does Lockstep.
- TimeLink: the epoch counter runs on another clock; that the word is steady during a frame is a condition (`Stable`), and EpochClock states how the word changes on its own clock.
- EventChannel.PulseLaw: events closer together than delay + width + 4 clocks.
- PscMsg.RecvSkip: the scratch array stands for the 128-byte buffer and for what lies behind it; how many bytes go beyond the buffer is stated, not what they overwrite.
- PscMsg: send errors are sticky, as the server closes the socket on them; receive errors are sticky or time out. psc_sendmsgsingle and the error formatter are plain uses of the same calls.
- Listener: accepting a connection and storing its socket is one step, connections have identities that are not reused, and thread creation, timeouts and the final close are not modelled.
- Register dispatch, sensor and PLL drivers, console, file system, LEDs and build scripts.
