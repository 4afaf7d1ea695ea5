# Verified model of r4os kernel protocols and data paths

This Dafny project models the parts of the r4os kernel that carry its hardest promises, and proves
those promises for all inputs, all runs and all interleavings. `dafny verify dfyconfig.toml` checks
everything.

| component | modules |
|---|---|
| CPU hot-unplug, restart and TLB shootdown | `CpuState`, `CpuSteps` (the steps), `CpuInvariant`, `CpuMoves`, `CpuApProof`, `CpuCtlBooks`, `CpuCtlProof`, `CpuWire`, `CpuWireProof`, `CpuSystem` (the invariant), `CpuHistory`, `CpuTheorems` (the promises), `CpuSolo`, `CpuProgress`, `CpuInvalidate`, `CpuRefusals` (what the threads achieve and refuse) |
| Streaming resampler | `PcmFormat`, `PcmStream` (specification), `PcmProof`, `PcmBytes`, `PcmResampler` (the state updated in place) |
| Playback attribution | `PlaybackSource`, `PlaybackLedger`, `PlaybackDesk` (both together), `PlaybackTruth` (what the counters mean) |
| Mixer and byte rings | `Mixer`, `RingWindow` |
| MTRR maps | `Bits`, `MemoryTypes`, `MtrrCompare`, `MtrrLaws` |
| COM1 ownership and transmit ring | `SerialAdmission`, `SerialProgress`, `SerialRing` |
| Display backend manager | `DisplayBackend` (specification), `DisplayManager` (the object), `DisplayLaws` |
| Machine-check snapshots | `MachineCheckStore`, `MachineCheckProgress`, `MachineCheckCapture`, `MachineCheckLaws`, `MachineCheckPublish` |
| Microcode containers | `MicrocodeSelect`, `MicrocodeLayout`, `MicrocodeIntel`, `MicrocodeAmd`, `MicrocodeAmdParser`, `MicrocodeOrder`, `MicrocodeIntelOrder`, `MicrocodeAmdOrder` |
| Shared values | `Common` |
| MWAIT idle gate | `IdleGate`, `IdleProgress` |

Code that changes fields, rings and buffers is modelled by classes and methods with loops, proved
against specification functions. Code that several CPUs run at once is modelled as a transition
system with one step per atomic access. Its safety is proved for every reachable state; that it is not
bought by refusing everything is proved by the runs in which each thread, left to itself, reaches its
goal, and by the exact conditions under which it is turned away.

The concurrent models assume:

- Sequentially consistent interleaving. Generations, epochs and sequence numbers do not wrap.
- The Runtime owner, the page-table owner and the serial owner are mutexes. The activity claim
  lets one lifecycle controller run at a time.
- `flush_local` drops every cached translation of its range, and a CR3 reload drops all of them:
  translations are not global.
- While a CPU holds the page-table owner for an invalidation, its own AP code does not run;
  interrupt handlers are frames of their own and run on live CPUs only.
- Migration, interrupt retargeting, delivery of IPIs, FPU and APIC setup and every timed wait are
  choices of the environment: they may succeed or fail at any moment.
- A delivered machine check interrupts the boot publisher of its CPU for good: the boot publisher
  takes no step after the terminal claim.
- Device positions satisfy `consumed <= dma`, which the kernel checks before it uses them.

Findings about the code, kept as they are and stated exactly:

- `select` in the microcode parser depends on file order: two different patches of one revision are
  refused when they come before a newer one and ignored after it (`MicrocodeAmdOrder.OrderMatters`,
  with two such files in `MicrocodeAmdOrder.OrderMattersHere`). The order does not matter if and only
  if no two different patches share a revision, or two different ones share the highest
  (`MicrocodeOrder.OrderIrrelevantIff`).
- The unit-gain path of the mixer repeats the byte of a one-byte ring, where the other paths are
  silent (`Mixer.DirectAgrees`, `Mixer.Mix`).
- A range that `append` accepts is exactly the set of matching addresses if and only if the page
  bits below the limit have no gap (`MemoryTypes.AppendExactIff`). Its 64-bit sums overflow, which
  stops the kernel (`Cargo.toml:25`), for some active register pair if and only if the limit is above
  2^64 - 4096 (`MemoryTypes.OverflowIff`). All captured limits are powers of two up to 2^52.
- A chunk can be drained until it is reported done if and only if it has a whole source frame
  (`PcmProof.DoneIffFrames`). A chunk without one at the end of a stream withholds the tail: the next
  `finish` writes nothing. The whole conversion comes out exactly when there is no tail, or the last
  chunk has a frame and the finish buffers have room (`PcmProof.StreamIsReference`).

## Model

| member | source | states |
|---|---|---|
| `CpuTheorems.InvalidateCoherent` | Rust/arch/tlb.rs:130-212 | in every reachable state in which `invalidate` has just returned ok, no CPU that is then a TLB participant caches a translation of the range that is older than the page tables |
| `CpuTheorems.ParticipantsCoherent` | Rust/arch/tlb.rs:241-259 | in every reachable state, a participant caches no stale translation of any page, except pages whose page-table change has not been invalidated successfully yet |
| `CpuTheorems.SchedulableParticipates` | Rust/arch/percpu.rs:152-179 | in every reachable state, cancellation races included, each schedulable CPU is a TLB participant |
| `CpuTheorems.WithdrawnForGood` | Rust/arch/cpu_lifecycle.rs:319-441 | once an epoch is marked withdrawn, after any further steps of any threads the CPU is, while the epoch lasts, still withdrawn, not schedulable, not a participant and only Parked, StopPending, Offline or Terminal, never Online again |
| `CpuTheorems.ReceiptSound` | Rust/arch/cpu_lifecycle.rs:284-312 | a stop receipt for (cpu, epoch) passes only if that AP parked, was withdrawn, left both masks, flushed its TLB after it left, recorded its stop in that same epoch and is halted |
| `CpuTheorems.ReceiptLasts` | Rust/arch/cpu_lifecycle.rs:638-652 | from a receipt on, every run either still has the receipt, with the AP halted and flushed, or has moved to a larger epoch |
| `CpuTheorems.ReceiptStopsAp` | Rust/arch/percpu.rs:268-283 | while the receipt passes, neither the AP's own code nor an interrupt handler on it can change anything |
| `CpuTheorems.ReceiptSpent` | Rust/arch/smp.rs:791-830 | after the epoch has grown past e, the receipt for e never passes again, in any run |
| `CpuTheorems.EpochNeedsReceipt` | Rust/arch/cpu_lifecycle.rs:442-451 | an epoch changes only to its successor, and only in a state in which the current epoch has a reusable (stopped and retired) receipt |
| `CpuTheorems.RetiredHasReceipt` | Rust/arch/cpu_lifecycle.rs:313-318 | a CPU recorded as retired in its current epoch has a passing stop receipt |
| `CpuTheorems.SipiFindsHalted` | Rust/arch/smp.rs:436-480 | the startup IPI of the controller only ever finds a halted AP |
| `CpuSystem.StepKeeps` | Rust/arch/cpu_lifecycle.rs:562-673 | every step of an AP, the controller, the shutdown thread, the page-table owner, an interrupt handler or the hardware TLB keeps the invariant of the whole machine |
| `CpuSystem.RunKeeps` | Rust/arch/tlb.rs:61-259 | so does every finite run of such steps, in any interleaving |
| `CpuSystem.ReachableInv` | Rust/arch/percpu.rs:107-123 | the invariant holds in every state reachable from boot |
| `CpuApProof.ApKeeps` | Rust/arch/cpu_lifecycle.rs:562-673 | each step of an AP (entry, admission, join, work, park, poll, cancel, terminal stop) keeps the invariant of its slot and touches the two mutexes only as their holder |
| `CpuCtlProof.CtlKeeps` | Rust/arch/cpu_lifecycle.rs:263-451 | each step of the controller (offline, cancel, online, start) keeps the invariant of the slot it works on, whatever the AP does meanwhile |
| `CpuCtlProof.ShutdownKeeps` | Rust/arch/smp.rs:592-628 | each step of the terminal stop of the other CPUs keeps the invariant of the slot it stops |
| `CpuWireProof.RequestKeeps` | Rust/arch/tlb.rs:130-212 | each step of `invalidate`, including a failed wait and a retry, keeps the coherence invariant of all CPUs and all handlers in flight |
| `CpuWireProof.HandlerKeeps` | Rust/arch/tlb.rs:223-259 | each step of a request handler (load generation, load range, flush, store the acknowledgement), however late, keeps it too, so an acknowledgement of the pending generation means that its range was flushed on that CPU |
| `CpuWireProof.ApQuieter` | Rust/arch/smp.rs:742-774 | a step of an AP only drops translations, and makes it a participant only from a join point, which it reaches by a full flush under the page-table owner |
| `CpuHistory.StepGrows` | Rust/arch/cpu_lifecycle.rs:284-318 | one step never lowers an epoch, never takes back a withdrawal or a stop receipt within an epoch, retires a CPU only on a stop receipt, and opens the next epoch only on a reusable one |
| `CpuHistory.RunGrows` | Rust/arch/cpu_lifecycle.rs:284-318 | over every run epochs never fall, and within an epoch withdrawals and receipts are never taken back |
| `CpuCtlBooks.RestartBook` | Rust/arch/ap_admission.rs:70-89 | the restart side (receipt, re-arm of acknowledgement and admission, next topology epoch) keeps the record invariant of the slot |
| `CpuCtlBooks.WithdrawBook` | Rust/arch/tlb.rs:81-96 | the withdrawal (loads under the page-table owner, leaving the mask, recording the withdrawal, arming the stop, confirming the receipt) keeps it |
| `CpuCtlBooks.LaunchBook` | Rust/arch/smp.rs:436-591 | admission and launch up to Qualified, the two passes of activation (release every qualified AP, then await each) and the failure of an AP keep it, however many APs are qualified and not yet released |
| `CpuInvalidate.FailsOnlyFor` | Rust/arch/tlb.rs:130-212 | whatever any thread does, `invalidate` newly answers false only by its own step, and only for an empty range, for targets without a way to send, or for a target that is still a participant and whose acknowledgement the last scan did not see |
| `CpuInvalidate.ScanSucceeds` | Rust/arch/tlb.rs:182-193 | from the start of a scan in which every target has acknowledged or left the mask, the requester's own next |cpus| + 2 steps answer ok and clean the range, whatever it is asked |
| `CpuInvalidate.HandlerAnswers` | Rust/arch/tlb.rs:223-259 | an interrupt handler on a live target, or a poll that has not answered yet, flushes and acknowledges the pending request |
| `CpuInvalidate.HandlerDrops` | Rust/arch/tlb.rs:249-256 | a target told to drop its answer drops exactly one |
| `CpuInvalidate.InvalidateCompletes` | Rust/arch/tlb.rs:130-212 | from every state with a range to invalidate, live participants and a free handler, the shootdown can finish with ok |
| `CpuProgress.JoinGrants` | Rust/arch/smp.rs:742-774 | from the runtime owner on, with both mutexes free, the own next steps of an AP that is qualified in its epoch make it Online, schedulable and a participant, with an empty translation cache at the grant |
| `CpuProgress.BootsQualified` | Rust/arch/smp.rs:481-554 | from every calm state an admitted AP can be launched and qualified, with the controller idle again |
| `CpuProgress.Activates` | Rust/arch/smp.rs:555-591 | activation brings a qualified AP online |
| `CpuProgress.GoesOffline` | Rust/arch/cpu_lifecycle.rs:319-441 | from every calm state, an AP at work that owes no acknowledgement can be taken offline, up to a passing and reusable receipt |
| `CpuProgress.ComesBack` | Rust/arch/smp.rs:791-830 | from every calm state with a reusable receipt, the AP can come online in the next epoch |
| `CpuProgress.CancelledInTime` | Rust/arch/cpu_lifecycle.rs:263-283 | an offline that fails after the park ends with the AP Online in the same epoch |
| `CpuProgress.DrainTakenBack` | Rust/arch/percpu.rs:227-230 | one that fails before the park does so at once |
| `CpuProgress.FailedInTime` | Rust/arch/smp.rs:301-322 | an AP that does not enter in time is failed |
| `CpuProgress.TerminalEnds` | Rust/arch/smp.rs:592-628 | the terminal stop takes a running AP out of both masks and halts it |
| `CpuProgress.TerminalEndsParked` | Rust/arch/percpu.rs:284-301 | likewise a parked one |
| `CpuProgress.HotPlugCycle` | Rust/arch/cpu_lifecycle.rs:319-451 | from every boot state and for every AP, states with the AP Online, with its receipt, and Online again in the next epoch are reachable by steps of the controller and of that AP alone |
| `CpuRefusals.EntryRefused` | Rust/arch/ap_admission.rs:90-103 | an AP that was not admitted for its epoch halts |
| `CpuRefusals.EntryRejected` | Rust/arch/ap_admission.rs:104-123 | one that is rejected is recorded as such and halts |
| `CpuRefusals.EntryFails` | Rust/arch/smp.rs:643-741 | one that fails later takes its slot to Failed, when that transition is allowed, and halts |
| `CpuRefusals.ReleaseRefused` | Rust/arch/smp.rs:643-741 | a released AP that is not qualified in its epoch halts |
| `CpuRefusals.JoinRefused` | Rust/arch/smp.rs:757-774 | publish_online gives both mutexes back and halts an AP that is no longer qualified |
| `CpuRefusals.ParkRefused` | Rust/arch/cpu_lifecycle.rs:562-600 | a draining CPU goes on working while one of the records of its drain is missing |
| `CpuRefusals.StopRefused` | Rust/arch/cpu_lifecycle.rs:600-673 | a parked CPU does not stop unless all seven records and the mask agree, and changes nothing |
| `CpuRefusals.ResumeRefused` | Rust/arch/cpu_lifecycle.rs:600-673 | a cancel after the withdrawal is ignored |
| `CpuRefusals.DrainRefused` | Rust/arch/cpu_lifecycle.rs:319-340 | offline is refused, with nothing changed, unless the epoch is current, the system runs and the CPU is Online in the epoch it installed |
| `CpuRefusals.WithdrawLoads` | Rust/arch/tlb.rs:81-96 | a withdrawal is given up, with nothing changed, when any of its checks fails: diagnostics, epoch, a missing acknowledgement, state, schedule or mask |
| `CpuRefusals.RestartRefused` | Rust/arch/cpu_lifecycle.rs:442-451 | online is refused, with nothing changed, unless the reusable receipt holds |
| `CpuRefusals.QualifyRefused` | Rust/arch/smp.rs:467-477 | an entered AP without a qualified admission record is failed |
| `CpuRefusals.LetRefused` | Rust/arch/smp.rs:564-570 | activation releases no AP that is not qualified |
| `PcmProof.ChunkingIrrelevant` | Rust/audio/pcm.rs:182-239 | any two ways of cutting the same frames into chunks, chunks without a frame included, each drained through output buffers of any sizes, emit the same frames, namely the available prefix of the ideal interpolation of the whole input |
| `PcmBytes.ByteChunkingIrrelevant` | Rust/audio/pcm.rs:182-239 | the same in bytes: cutting the same source bytes at any frame boundaries, with buffers of any lengths, writes the same bytes |
| `PcmBytes.DecodeJoin` | Rust/audio/pcm.rs:303-332 | decoding whole frames piece by piece gives the frames of all the bytes |
| `PcmBytes.EncodeJoin` | Rust/audio/pcm.rs:341-350 | what several calls write is the encoding of all their frames |
| `PcmProof.StreamReaches` | Rust/audio/pcm.rs:132-181 | streaming output followed by the finish tail is the whole-input conversion, frame by frame, up to an exactly stated point, for every rate, chunking and buffer size |
| `PcmProof.StreamIsReference` | Rust/audio/pcm.rs:132-181 | it is the whole conversion if and only if there is no tail, or the stream ends with a chunk that has a frame and the finish buffers have room for the tail |
| `PcmProof.OutputCountExact` | Rust/audio/pcm.rs:68-82 | in exactly those cases streaming plus tail gives `output_frame_count` frames, for every input length and rate |
| `PcmProof.PendingTailExact` | Rust/audio/pcm.rs:291-302 | `pending_tail_bytes` is what `finish` writes into a buffer with that much room, in any state |
| `PcmProof.FinishConverts` | Rust/audio/pcm.rs:265-290 | finish calls with buffers of any size continue the reference, exactly as far as their room allows |
| `PcmProof.ConvertConverts` | Rust/audio/pcm.rs:182-239 | one streaming call emits the next frames of the reference, as many as fit, and is done exactly when the chunk is exhausted |
| `PcmProof.DirectAsInterpolating` | Rust/audio/pcm.rs:84-130 | on 48 kHz stereo the direct path emits, call by call, what the interpolating path would |
| `PcmProof.AdvanceExact` | Rust/audio/pcm.rs:256-264 | one advance of phase and remainder takes the quotient and remainder of k * rate * 65536 by 48000 to those of k + 1, so positions never drift |
| `PcmProof.DoneIffFrames` | Rust/audio/pcm.rs:192-201 | some sequence of buffers drains a chunk until it is reported done if and only if the chunk has a whole frame |
| `PcmProof.DrainConverts` | Rust/audio/pcm.rs:182-239 | draining a chunk emits exactly as many reference frames as fit, and reports it done exactly when it has a frame and nothing of it is left |
| `PcmProof.EmptyStays` | Rust/audio/pcm.rs:192-201 | a chunk without a whole frame changes nothing and is never reported done |
| `PcmFormat.LerpBetween` | Rust/audio/pcm.rs:354-363 | interpolation with truncating division stays between its two samples, so the clamp never acts, and is the first sample at fraction 0 |
| `PcmFormat.LerpExact` | Rust/audio/pcm.rs:354-363 | interpolation goes the whole part of |b - a| * frac / 65536 from a towards b |
| `PcmFormat.WholePart` | Rust/audio/pcm.rs:361-361 | the quotient is rounded towards zero, with the sign of the dividend |
| `PcmFormat.ClampNearest` | Rust/audio/pcm.rs:364-372 | clamping takes the nearest sample |
| `PcmFormat.SampleOfBytes` | Rust/audio/pcm.rs:333-340 | a sample is the little-endian two's complement value of its bytes |
| `PcmBytes.BytesAreWidened` | Rust/audio/pcm.rs:321-332 | an 8-bit span decodes as the 16-bit span of its widened samples |
| `PcmBytes.MonoIsDoubled` | Rust/audio/pcm.rs:311-320 | a mono span decodes as the stereo span with both channels alike |
| `PcmFormat.ByteRoundTrip` | Rust/audio/pcm.rs:333-350 | two bytes read as a sample and written back are the same two bytes |
| `PcmFormat.SampleRoundTrip` | Rust/audio/pcm.rs:333-350 | a sample written and read back is the same sample |
| `PcmResampler.EncodeDecode` | Rust/audio/pcm.rs:84-130 | stereo 16-bit frames decoded and encoded again are the input bytes |
| `PcmResampler.DirectAnswers` | Rust/audio/pcm.rs:84-130 | the span of input bytes the direct path lends is the encoding of exactly the frames it stands for |
| `PcmResampler.Resampler.ResetIfFormatChanged` | Rust/audio/pcm.rs:40-50 | the state after a format change, as the stream specification has it |
| `PcmResampler.Resampler.BeginChunk` | Rust/audio/pcm.rs:51-55 | likewise for the start of a chunk |
| `PcmResampler.Resampler.AdvancePhase` | Rust/audio/pcm.rs:256-264 | likewise for one advance of the position |
| `PcmResampler.Resampler.TakeDirect` | Rust/audio/pcm.rs:84-130 | lends exactly the specified span and advances as specified, or declines |
| `PcmResampler.Resampler.Convert` | Rust/audio/pcm.rs:182-239 | writes the encoding of exactly the frames the specification emits to the front of the buffer, leaves the rest of the buffer alone, and takes the specified next state, on every path |
| `PcmResampler.Resampler.EmitFrames` | Rust/audio/pcm.rs:209-230 | the interpolation loop emits the specified frames |
| `PcmResampler.Resampler.Finish` | Rust/audio/pcm.rs:265-290 | writes the specified tail and takes the specified next state |
| `PlaybackSource.CallsKeep` | Rust/audio/playback.rs:223-304 | over every sequence of accept, submit and progress calls: consumed + unconfirmed = retired <= dma_retired <= submitted <= accepted, consumed <= dma <= dma_retired, dma_retired - dma <= unconfirmed, and the stamp ring encodes the acceptance times of the frames from retired to accepted |
| `PlaybackSource.NewCallsKeep` | Rust/audio/playback.rs:223-304 | in particular all these laws hold after any calls on a new source |
| `PlaybackSource.RoomLaw` | Rust/audio/playback.rs:223-259 | frames are accepted while a stamp is free or the last accepted frame is of the same moment, and exactly the accepted frames that were not submitted yet can be submitted, in order |
| `PlaybackSource.AcceptKeeps` | Rust/audio/playback.rs:229-249 | accept keeps these laws and appends its time once per accepted frame |
| `PlaybackSource.ApplyKeeps` | Rust/audio/playback.rs:260-304 | a progress report with any generation, position and stage keeps them |
| `PlaybackSource.QueueAgeExact` | Rust/audio/playback.rs:306-312 | the reported age is the age of the oldest unretired frame, and the stamp ring is empty exactly when everything accepted is retired |
| `PlaybackSource.LiveSource.AcceptFrames` | Rust/audio/playback.rs:229-249 | the in-place update of counters and stamp ring is the specified one |
| `PlaybackSource.LiveSource.SubmitFrames` | Rust/audio/playback.rs:250-259 | likewise, with the first frame number returned or nothing |
| `PlaybackSource.LiveSource.RetireThrough` | Rust/audio/playback.rs:260-284 | likewise, the loop over the stamp ring included |
| `PlaybackSource.LiveSource.ObserveDmaThrough` | Rust/audio/playback.rs:285-297 | likewise for DMA reports |
| `PlaybackSource.LiveSource.ApplyUpdate` | Rust/audio/playback.rs:298-305 | likewise for a dispatched report |
| `PlaybackSource.LiveSource.QueueAgeNow` | Rust/audio/playback.rs:306-313 | reads the age from the head of the stamp ring |
| `PlaybackLedger.Ledger.Append` | Rust/audio/playback.rs:92-118 | push appends the span, or leaves the ring as it was |
| `PlaybackLedger.Ledger.Look` | Rust/audio/playback.rs:119-164 | one look at the head span records and reports exactly its new progress |
| `PlaybackLedger.Ledger.ObserveSpans` | Rust/audio/playback.rs:119-164 | the loop over the ring leaves the spans and reports the updates that the recursive specification gives |
| `PlaybackDesk.ObserveKeeps` | Rust/audio/playback.rs:119-164 | under any device position and previous position, the contributions of each live (slot, generation) stay contiguous from retired to submitted, and every update for it is accepted by its source |
| `PlaybackDesk.RunKeeps` | Rust/audio/core/playback_progress.rs:19-108 | over every run of opening, accepting, mixing, observing (with arbitrary epoch resets) and closing streams, ledger and sources agree in this sense |
| `PlaybackDesk.UpdatesSettle` | Rust/audio/core/playback_progress.rs:19-34 | in every run, each update is accepted exactly when it names the live generation and changes nothing otherwise |
| `PlaybackDesk.EmptyMeansRetired` | Rust/audio/playback.rs:85-91 | in every run, an empty ledger means retired = dma_retired = submitted for every open stream |
| `PlaybackDesk.PushSucceeds` | Rust/audio/core/streams.rs:646-730 | the two assertions of the mixing step hold: each selected stream submits at the position recorded for it, and the ledger takes the span |
| `PlaybackTruth.ReportsVouched` | Rust/audio/playback.rs:119-164 | every Dma or Consumed report names a span and a position of its epoch whose counter has come that far into the span; all others are unconfirmed rests |
| `PlaybackTruth.ObserveTruthful` | Rust/audio/playback.rs:119-164 | of the frames an observation retires, exactly those count as consumed whose device frame the consumed position has passed, and exactly those DMA has passed count as read; a frame is lost only from a span without a receipt or of an ended epoch; the span that stays is of the current epoch, unfinished, and has no unreported reached frame |
| `PlaybackTruth.RunCounted` | Rust/audio/core/playback_progress.rs:19-108 | over every run, the consumed and DMA counters of each open stream are the numbers of its frames that the device had reached when they were reported |
| `PlaybackTruth.PlayedIsPlayed` | Rust/audio/core/playback_progress.rs:19-108 | in particular in every run from an empty desk |
| `PlaybackTruth.TallyWitnessed` | Rust/audio/core/playback_progress.rs:19-108 | for each of those frames, some observation of the run had a position beyond its device frame, in the ledger of that moment |
| `PlaybackTruth.PlaysThrough` | Rust/audio/core/streams.rs:646-730 | a chunk that is accepted, mixed and consumed by the device ends as accepted = submitted = read = consumed, for every size and position, with nothing left in ledger or stamp ring |
| `MtrrCompare.Mtrrs.Equivalent` | Rust/arch/memory_types.rs:162-203 | true exactly when the limit is not zero, the other limit is at least as large, and at every address below the limit both maps give the same defined type; the 1200-entry buffer suffices |
| `MtrrCompare.SamplesSuffice` | Rust/arch/memory_types.rs:162-203 | agreement at the sampled change points is agreement at every address below the limit |
| `MtrrCompare.TypeConstant` | Rust/arch/memory_types.rs:123-159 | a map is constant between two consecutive change points |
| `MtrrCompare.Mtrrs.At` | Rust/arch/memory_types.rs:123-161 | the loop finds the type given by the set of matching kinds: uncacheable wins, a single kind is itself, write-through wins over write-back, any other mix is undefined |
| `MtrrLaws.TwoRanges` | Rust/arch/memory_types.rs:139-160 | for two ranges over an address, in either order: uncached wins, equal kinds agree, write-through restricts write-back, and every other pair is undefined |
| `MtrrLaws.MoreRestricts` | Rust/arch/memory_types.rs:139-160 | one more range over a covered address never lifts uncached and never makes anything but write-back write-back |
| `MtrrLaws.OrderIrrelevant` | Rust/arch/memory_types.rs:139-160 | the type does not depend on the order or repetition of ranges |
| `MtrrLaws.OneKind` | Rust/arch/memory_types.rs:152-154 | ranges of one kind give that kind |
| `MtrrLaws.UncachedWins` | Rust/arch/memory_types.rs:146-148 | any uncached range over an address makes it uncached |
| `MtrrLaws.DefaultElsewhere` | Rust/arch/memory_types.rs:149-151 | an address that no range covers has the default type |
| `MtrrLaws.FixedDecides` | Rust/arch/memory_types.rs:130-138 | an address in a fixed slot has the type of that slot |
| `MtrrLaws.SlotSizes` | Rust/arch/memory_types.rs:130-138 | the fixed slots are eight of 64 KiB, sixteen of 16 KiB and sixty-four of 4 KiB, without a gap |
| `MtrrLaws.OutsideTypes` | Rust/arch/memory_types.rs:124-129 | no type at or above the limit, and uncached below it without MTRRs |
| `MtrrLaws.TypeCodes` | Rust/arch/memory_types.rs:9-11 | the types a variable range may have |
| `MtrrCompare.Mtrrs.Sample` | Rust/arch/memory_types.rs:169-195 | the change points of a map below the bound are all put into the buffer, and at most 599 entries are used for one map |
| `MtrrCompare.Mtrrs.CheckAll` | Rust/arch/memory_types.rs:197-203 | all sampled points below the limit are compared |
| `MtrrCompare.Mtrrs.Append` | Rust/arch/memory_types.rs:95-122 | adds exactly the range of an accepted pair, and leaves the map unchanged otherwise; it may be called whenever no 64-bit sum overflows |
| `MemoryTypes.AppendExact` | Rust/arch/memory_types.rs:95-122 | with a gapless limit, the range of an accepted register pair is exactly the set of addresses that match base and mask |
| `MemoryTypes.AppendExactIff` | Rust/arch/memory_types.rs:95-122 | for limits of at least one page, the accepted ranges of all active register pairs are exact if and only if the page bits below the limit have no gap |
| `MemoryTypes.OverflowIff` | Rust/arch/memory_types.rs:105-112 | some active register pair overflows a 64-bit sum of `append` if and only if the limit is above 2^64 - 4096, so none does for a captured limit |
| `MemoryTypes.AppendInexact` | Rust/arch/memory_types.rs:95-122 | with a gap, an accepted pair matches an address outside its range |
| `MemoryTypes.AcceptedIff` | Rust/arch/memory_types.rs:95-122 | with address bits 12 to b - 1, a pair is accepted if and only if its type is valid, its mask has all address bits from some n on, its page address is a multiple of 2^n, and the block of 2^n bytes ends below the limit |
| `MemoryTypes.CapturedGapless` | Rust/arch/pat.rs:56-75 | every limit the kernel captures (2^32 to 2^52) is gapless, so the captured ranges are exact |
| `SerialAdmission.UsersExclude` | Rust/boot/serial_admission.rs:29-70 | in every interleaving, any two of admitted writers, closers past their writer wait (up to their last poll of the transmitter), emergency leases and initializers that use the port are the same user |
| `SerialAdmission.FinishAssertions` | Rust/boot/serial_admission.rs:64-72 | the assertions of `finish` never fail: the phase is still Closing, and a release finds no writers, although late admitters raise the count for a moment |
| `SerialAdmission.InitAssertion` | Rust/boot/serial_admission.rs:19-22 | the assertion of `initialized` never fails |
| `SerialAdmission.DropAssertion` | Rust/boot/serial_admission.rs:51-55 | a writer that is dropped was counted |
| `SerialAdmission.ReleasedForGood` | Rust/boot/serial.rs:374-462 | a released port stays released and unused in every later state |
| `SerialAdmission.StepKeeps` | Rust/boot/serial_admission.rs:13-70 | every step of a writer, closer, emergency user or initializer keeps the invariant of counts, owner, phase and users |
| `SerialAdmission.RunKeeps` | Rust/boot/serial_admission.rs:13-70 | so does every run |
| `SerialProgress.Activates` | Rust/boot/serial_admission.rs:13-22 | the initializer makes a cold port active |
| `SerialProgress.Admitted` | Rust/boot/serial_admission.rs:38-50 | a writer that finds the port active and the owner free is admitted and counted |
| `SerialProgress.Leaves` | Rust/boot/serial_admission.rs:51-55 | it leaves nothing behind |
| `SerialProgress.NestedAdmitted` | Rust/boot/serial.rs:304-317 | the nested flush of a sync call is admitted once more |
| `SerialProgress.TurnedAway` | Rust/boot/serial_admission.rs:38-50 | on a port that is not active no writer is admitted, and a late one takes its count back |
| `SerialProgress.EmergencyIff` | Rust/boot/serial_admission.rs:29-34 | emergency output is granted if and only if the port is active and no writer is counted; an active port is lost to everybody else either way |
| `SerialProgress.Waits` | Rust/boot/serial.rs:374-400 | a closer waits while a writer is counted, or gives up and keeps the claim |
| `SerialProgress.Finishes` | Rust/boot/serial.rs:445-462 | a successful last poll releases the port, a failed one keeps the claim |
| `SerialProgress.CanRelease` | Rust/boot/serial.rs:374-462 | a close of an active, unused port can end in its release |
| `SerialProgress.WholeLife` | Rust/boot/serial.rs:77-102 | from every boot state, states with an admitted writer and then with a released port are reachable |
| `SerialRing.SerialPort.Write` | Rust/boot/serial.rs:219-272 | a write appends to the stream of admitted bytes; buffered, the newest 8192 bytes survive an overflow and the oldest are counted as dropped; synchronous, exactly the bytes before the first timeout go out; every admitted byte is transmitted, pending or counted as dropped, and what the UART received is a subsequence of the input in order |
| `SerialRing.SerialPort.WriteBuffered` | Rust/boot/serial.rs:244-271 | the ring update of a buffered write, with the wrap-around of the counters |
| `SerialRing.SerialPort.WriteSync` | Rust/boot/serial.rs:234-243 | the synchronous loop, until the UART stops answering |
| `SerialRing.SerialPort.Burst` | Rust/boot/serial.rs:191-198 | the oldest bytes go out and leave the ring |
| `SerialRing.SerialPort.Drain` | Rust/boot/serial.rs:180-190 | at most one FIFO of the oldest bytes goes out, and only when the UART is ready |
| `SerialRing.SerialPort.ReadySync` | Rust/boot/serial.rs:199-215 | after one timeout the UART is never waited for again |
| `SerialRing.SerialPort.Flush` | Rust/boot/serial.rs:285-301 | one FIFO of the oldest bytes goes out per answered poll, the rest is counted as dropped at the first timeout, and nothing stays pending |
| `SerialRing.SerialPort.Sync` | Rust/boot/serial.rs:304-317 | the switch to synchronous mode keeps order and account, also when admission closes before the nested flush |
| `SerialRing.SendAccounts` | Rust/boot/serial.rs:191-198 | transmitting the oldest pending bytes keeps the account: sent indices increase, and sent, pending and dropped add up to the input |
| `SerialRing.DropAccounts` | Rust/boot/serial.rs:244-271 | losing the oldest pending bytes keeps it |
| `SerialRing.AddAccounts` | Rust/boot/serial.rs:244-271 | appending a write keeps it |
| `SerialRing.SyncAccounts` | Rust/boot/serial.rs:234-243 | a synchronous byte, sent or dropped, keeps it |
| `SerialRing.PlusSlot` | Rust/boot/serial.rs:262-266 | the ring slot of a counter survives the 2^64 wrap-around |
| `SerialRing.BufferedLaw` | Rust/boot/serial.rs:244-271 | a buffered write sends the oldest bytes in order, at most one FIFO of them, at least one when the port is ready and had something pending; the newest stay, and bytes are lost only into a full ring |
| `SerialRing.AnsweredIs` | Rust/boot/serial.rs:199-215 | the answered polls are those before the first one without an answer |
| `SerialRing.FlushCountIs` | Rust/boot/serial.rs:285-301 | a flush sends one FIFO for each answered poll, until nothing is left or a poll is not answered |
| `DisplayBackend.ApplySound` | Rust/display/backend_state.rs:71-333 | every operation keeps: Preparing exactly with a pending owner, BootFB without owner, Native, SoftwareNative and Recovering with one, all generations at most the serial |
| `DisplayBackend.ApplyGrants` | Rust/display/backend_state.rs:352-358 | every error leaves the manager unchanged; a granted generation is one above all before it and names an owner |
| `DisplayBackend.NoRevival` | Rust/display/backend_state.rs:292-314 | after any operation, the active and pending slots hold only pairs they held before or a generation that did not exist |
| `DisplayBackend.StaleForGood` | Rust/display/backend_state.rs:292-314 | an (owner, generation) pair that stops matching never matches again, in any run |
| `DisplayBackend.RestoredStep` | Rust/display/backend_state.rs:188-222 | an operation does not bring back an older restored-boot token |
| `DisplayBackend.RestoredSpent` | Rust/display/backend_state.rs:188-222 | once spent or overtaken, a restored-boot token never matches again |
| `DisplayBackend.RunSound` | Rust/display/backend_state.rs:59-333 | over every run the laws hold and the serial never falls |
| `DisplayBackend.RunFromBoot` | Rust/display/backend_state.rs:59-70 | from boot, in every run, the life-cycle states have the owners they promise |
| `DisplayLaws.BeginLaw` | Rust/display/backend_state.rs:92-109 | a driver may begin exactly from the boot framebuffer with a proper identity and policy; then its generation is the only token that commits, aborts or fails |
| `DisplayLaws.BeginRefused` | Rust/display/backend_state.rs:92-109 | why it may not begin |
| `DisplayLaws.CommitLaw` | Rust/display/backend_state.rs:128-135 | a committed backend is the active owner with the prepared adapter, may recover, and may report mode results if and only if it is a software mode |
| `DisplayLaws.FailCommitLaw` | Rust/display/backend_state.rs:136-143 | a failed commit leaves its owner without a mode, able to recover or to report one |
| `DisplayLaws.AbortLaw` | Rust/display/backend_state.rs:110-127 | an aborted first preparation gives the boot framebuffer back, one of a recovery leaves its owner able to recover again |
| `DisplayLaws.RecoveryLaw` | Rust/display/backend_state.rs:144-159 | a recovery is granted exactly to the active owner outside a recovery, spends its token, and may then be ended, restored, failed or reset |
| `DisplayLaws.ResetLaw` | Rust/display/backend_state.rs:160-187 | a device reset is granted exactly to the pending token while preparing and to the active one otherwise |
| `DisplayLaws.RestoreLaw` | Rust/display/backend_state.rs:250-272 | after a restored boot framebuffer exactly its last owner may reset the device, once, and a new driver may begin |
| `DisplayLaws.FinishLaw` | Rust/display/backend_state.rs:273-291 | a terminal finish leaves no token and no way to begin |
| `DisplayLaws.RecoveryFailedLaw` | Rust/display/backend_state.rs:240-249 | a failed recovery keeps its owner and may be tried again |
| `DisplayLaws.RepreparesLaw` | Rust/display/backend_state.rs:223-239 | a recovering owner may prepare its own adapter again, and only the new generation commits |
| `DisplayLaws.PolicyLaw` | Rust/display/backend_state.rs:71-83 | the policy is changed exactly while nobody owns or prepares the display, and turns drivers away |
| `DisplayLaws.RejectLaw` | Rust/display/backend_state.rs:84-91 | a rejection is recorded exactly while the boot framebuffer waits for a driver |
| `DisplayLaws.RevisionLaw` | Rust/display/backend_state.rs:356-358 | every accepted request is one revision |
| `DisplayLaws.ExhaustedLaw` | Rust/display/backend_state.rs:352-355 | no counter exceeds 64 bits, and nothing is refused as exhausted while there is room |
| `DisplayLaws.StaleLaw` | Rust/display/backend_state.rs:292-314 | a request whose token names nothing is stale, and one with the active token is not |
| `DisplayManager.BackendManager.constructor` | Rust/display/backend_state.rs:59-70 | keeps the laws of the manager; in-place update: the boot state |
| `DisplayManager.BackendManager.NextGeneration` | Rust/display/backend_state.rs:352-355 | keeps the laws of the manager; in-place update: the next serial, or Exhausted without a change |
| `DisplayManager.BackendManager.ChangePolicy` | Rust/display/backend_state.rs:71-83 | keeps the laws of the manager; in-place update: set_policy as specified |
| `DisplayManager.BackendManager.NoteReject` | Rust/display/backend_state.rs:84-91 | keeps the laws of the manager; in-place update: reject as specified |
| `DisplayManager.BackendManager.BeginPreparation` | Rust/display/backend_state.rs:92-109 | keeps the laws of the manager; in-place update: begin as specified, errors and exhaustion included |
| `DisplayManager.BackendManager.AbortPreparation` | Rust/display/backend_state.rs:110-127 | keeps the laws of the manager; in-place update: abort as specified |
| `DisplayManager.BackendManager.CommitPreparation` | Rust/display/backend_state.rs:128-135 | keeps the laws of the manager; in-place update: commit as specified |
| `DisplayManager.BackendManager.FailPreparation` | Rust/display/backend_state.rs:136-143 | keeps the laws of the manager; in-place update: fail_commit as specified |
| `DisplayManager.BackendManager.StartRecovery` | Rust/display/backend_state.rs:144-159 | keeps the laws of the manager; in-place update: begin_recovery as specified |
| `DisplayManager.BackendManager.StartDeviceReset` | Rust/display/backend_state.rs:160-187 | keeps the laws of the manager; in-place update: begin_device_reset as specified |
| `DisplayManager.BackendManager.StartRestoredReset` | Rust/display/backend_state.rs:200-222 | keeps the laws of the manager; in-place update: begin_restored_boot_reset as specified |
| `DisplayManager.BackendManager.PrepareAgain` | Rust/display/backend_state.rs:223-239 | keeps the laws of the manager; in-place update: reprepare as specified |
| `DisplayManager.BackendManager.NoteRecoveryFailed` | Rust/display/backend_state.rs:240-249 | keeps the laws of the manager; in-place update: recovery_failed as specified |
| `DisplayManager.BackendManager.ReturnToBoot` | Rust/display/backend_state.rs:250-272 | keeps the laws of the manager; in-place update: restore_boot as specified |
| `DisplayManager.BackendManager.EndTerminal` | Rust/display/backend_state.rs:273-291 | keeps the laws of the manager; in-place update: finish_terminal as specified |
| `DisplayManager.BackendManager.NoteModeResult` | Rust/display/backend_state.rs:315-333 | keeps the laws of the manager; in-place update: mode_result as specified |
| `MachineCheckStore.InfoAtomic` | Rust/arch/machine_check_store.rs:69-81 | with word-by-word writes and a terminal publisher that may replace an interrupted boot publication, a successful `info` returns all words of one completed publication, the one its sequence names |
| `MachineCheckStore.BankAtomic` | Rust/arch/machine_check_store.rs:82-103 | a successful `get_bank` returns a row of exactly the publication whose epoch and sequence it was asked for |
| `MachineCheckStore.OneTerminalWinner` | Rust/arch/machine_check_store.rs:30-52 | only one terminal claim ever wins |
| `MachineCheckStore.StepKeeps` | Rust/arch/machine_check_store.rs:30-103 | every step of a publisher, a claimant or a reader keeps the invariant of cells and completed publications |
| `MachineCheckStore.RunKeeps` | Rust/arch/machine_check_store.rs:30-103 | so does every run |
| `MachineCheckProgress.InfoSucceeds` | Rust/arch/machine_check_store.rs:69-81 | a sample of a completed record that nobody replaces meanwhile returns all its words |
| `MachineCheckProgress.BankIff` | Rust/arch/machine_check_store.rs:82-103 | a bank is then returned if and only if the query names epoch, sequence and a stored row |
| `MachineCheckProgress.FailsOnlyFor` | Rust/arch/machine_check_store.rs:69-103 | a reader fails only for an empty or unfinished record, a publication since its first look, or a query that does not name the record |
| `MachineCheckProgress.Publishes` | Rust/arch/machine_check_store.rs:30-68 | a publisher that is not interrupted completes: the cells hold the publication under the next even number |
| `MachineCheckProgress.TurnedAway` | Rust/arch/machine_check_store.rs:30-52 | an unfinished record stops a boot publisher, and a later terminal claim is only counted |
| `MachineCheckProgress.TerminalRecorded` | Rust/arch/machine_check_store.rs:30-68 | from every state before the terminal claim, wherever the boot publisher was interrupted, a machine check is recorded and can then be read |
| `MachineCheckCapture.Collect` | Rust/arch/machine_check_capture.rs:48-150 | an unqualified profile reads no register; otherwise the registers read, in order, are exactly the global ones and those the statuses name, every row says what its own reads found, and counts, faults and notes match that trace |
| `MachineCheckCapture.ReadBank` | Rust/arch/machine_check_capture.rs:82-146 | each value of the row is what its register held at its place in the sequence of reads; auxiliary registers are read exactly when the valid status (and the configuration) names them; the fault and instability flags say exactly when one of its reads failed or the status changed |
| `MachineCheckCapture.FaultsGrow` | Rust/arch/machine_check_capture.rs:98-147 | comparing the fault counter before and after a bank tells exactly whether one of its reads faulted |
| `MachineCheckCapture.ReadBanks` | Rust/arch/machine_check_capture.rs:82-150 | all banks are reported in order, and the number of valid ones is counted |
| `MachineCheckCapture.RowsMatchRecord` | Rust/arch/machine_check_capture.rs:82-150 | the rows a publication hands out are numbered as stored and carry the identity of the record, which is what `get_bank` relies on |
| `MachineCheckLaws.WhichRegisters` | Rust/arch/machine_check_capture.rs:98-147 | the status is read first and, when valid, last; every other register at most once, and exactly when bits 58, 59 and 53 of the status and bit 0 of the configuration name it |
| `MachineCheckLaws.ValidBit` | Rust/arch/machine_check_capture.rs:98-110 | a row is valid exactly when bit 63 of its status is set |
| `MachineCheckLaws.BanksApart` | Rust/arch/machine_check_capture.rs:82-97 | no two banks share a register, and all lie in the documented windows |
| `MachineCheckPublish.Publish` | Rust/arch/machine_check_store.rs:53-68 | every scan, laid out in words, is a publication the store accepts: as many rows as the record says, at most 64, under the record's epoch and sequence number |
| `MicrocodeSelect.WordSum` | Rust/arch/microcode_format.rs:29-36 | the loop computes the sum of all words modulo 2^32 |
| `MicrocodeSelect.SumDetects` | Rust/arch/microcode_format.rs:29-36 | two strings that differ in exactly one byte have different sums |
| `MicrocodeSelect.SelectAllChosen` | Rust/arch/microcode_format.rs:37-53 | an accepted choice is none exactly when nothing matches, otherwise a patch of maximum revision, byte-identical to every other patch of that revision |
| `MicrocodeSelect.SelectAllFails` | Rust/arch/microcode_format.rs:37-53 | selection fails if and only if two different patches share a revision that no earlier patch exceeds |
| `MicrocodeOrder.OrderIrrelevantIff` | Rust/arch/microcode_format.rs:37-53 | every order of the matching patches gets the same verdict if and only if no two different patches share a revision, or two different ones share the highest |
| `MicrocodeOrder.SettledSame` | Rust/arch/microcode_format.rs:37-53 | in that case lists with the same revisions and contents, in any order and in any files, get the same verdict |
| `MicrocodeOrder.UnsettledDiffers` | Rust/arch/microcode_format.rs:37-53 | in every other case some order gets another verdict |
| `MicrocodeAmdOrder.OrderMatters` | Rust/arch/microcode_format.rs:161-244 | for any table and fitting sections a, b, c with a != b of one revision below that of c: the file with a, b, c is refused, the file with c, a, b is accepted with c |
| `MicrocodeAmdOrder.OrderMattersHere` | Rust/arch/microcode_format.rs:161-244 | one such pair of files, byte by byte |
| `MicrocodeAmdOrder.FilesAgree` | Rust/arch/microcode_format.rs:161-244 | two files whose matching sections are the same and settled get the same verdict, however they are ordered and distributed over containers |
| `MicrocodeIntelOrder.FilesAgree` | Rust/arch/microcode_format.rs:56-141 | likewise for two Intel files whose matching records have the same revisions and data |
| `MicrocodeLayout.RecordLayout` | Rust/arch/microcode_format.rs:68-97 | the well-formed records are exactly the encodings of a header, data and an optional table with fitting sizes and checksum |
| `MicrocodeLayout.RecordDetects` | Rust/arch/microcode_format.rs:68-126 | no two well-formed records of one data size differ in a single byte |
| `MicrocodeLayout.TableLayout` | Rust/arch/microcode_format.rs:98-126 | the accepted extended tables are exactly the encodings of their entries |
| `MicrocodeLayout.MatchLayout` | Rust/arch/microcode_format.rs:94-126 | a record matches exactly the signatures and platform bits of its header and its entries |
| `MicrocodeLayout.SectionLayout` | Rust/arch/microcode_format.rs:205-219 | the layout of an AMD section |
| `MicrocodeLayout.RowLayout` | Rust/arch/microcode_format.rs:182-199 | the layout of a row of an equivalence table |
| `MicrocodeLayout.SignatureLayout` | Rust/arch/microcode_format.rs:142-156 | the patch identifier carries stepping, model and family of its processor |
| `MicrocodeLayout.FitsLaw` | Rust/arch/microcode_format.rs:220-227 | from family 17h on the equivalence table does not matter, before it decides alone |
| `MicrocodeLayout.LateFits` | Rust/arch/microcode_format.rs:220-227 | a patch of a late family fits the processor its identifier names if and only if its processor field is of that family |
| `MicrocodeIntel.Intel` | Rust/arch/microcode_format.rs:56-141 | the loop answers exactly as the specification: an error unless the file is 1 to 131072 bytes, the platform is one bit, and the bytes are at most 64 well-formed records without clash; the error names the first defect, after records that are well formed and do not clash |
| `MicrocodeIntel.CheckRecord` | Rust/arch/microcode_format.rs:68-97 | accepts exactly the well-formed record at the front, says whether it matches, and otherwise names its first defect |
| `MicrocodeIntel.CheckExtended` | Rust/arch/microcode_format.rs:98-126 | accepts exactly a well-formed extended signature table, finds a match exactly when an entry matches, and otherwise names the defect |
| `MicrocodeIntel.CutTiles` | Rust/arch/microcode_format.rs:56-141 | a file that can be cut is tiled exactly by well-formed, checksum-zero records |
| `MicrocodeIntel.TilingIsCut` | Rust/arch/microcode_format.rs:56-141 | every tiling by well-formed records is the one the parser finds, so there is only one |
| `MicrocodeIntel.AcceptedMeans` | Rust/arch/microcode_format.rs:56-141 | Ok means: some tiling by 1 to 64 well-formed records, every match in bounds, and the answer is a maximum-revision match or none |
| `MicrocodeIntel.TiledIsAccepted` | Rust/arch/microcode_format.rs:56-141 | conversely every such file without a clash is accepted with that answer |
| `MicrocodeAmdParser.Amd` | Rust/arch/microcode_format.rs:161-244 | the nested loops answer exactly as the specification of AMD files; the error names the first defect, after containers and sections that are well formed and do not clash |
| `MicrocodeAmdParser.TakeSections` | Rust/arch/microcode_format.rs:200-241 | the section loop takes all sections of one container, or fails exactly when the file must fail, with the error of the first defect |
| `MicrocodeAmdParser.CheckTable` | Rust/arch/microcode_format.rs:169-199 | accepts exactly a well-formed header and equivalence table, finds the equivalence number, and otherwise names the first defect |
| `MicrocodeAmdParser.CheckRows` | Rust/arch/microcode_format.rs:182-199 | the row loop is the recursive scan of the table |
| `MicrocodeAmdParser.CheckSection` | Rust/arch/microcode_format.rs:205-219 | accepts exactly a well-formed section, and otherwise names the first defect |
| `MicrocodeAmd.TableMeans` | Rust/arch/microcode_format.rs:182-199 | a table passes if and only if all rows are well formed and the rows that name the signature agree; it gives their number, and none exactly when no row names the signature |
| `MicrocodeAmd.ParsedEncodes` | Rust/arch/microcode_format.rs:161-244 | a parsed file is, byte for byte, the encoding of well-formed containers |
| `MicrocodeAmd.EncodedParses` | Rust/arch/microcode_format.rs:161-244 | the encoding of any well-formed containers parses back to them |
| `MicrocodeAmd.AcceptedMeans` | Rust/arch/microcode_format.rs:161-244 | Ok means: the file is the encoding of well-formed containers with at most 128 sections, every match is in bounds, and the answer is a maximum-revision match or none |
| `MicrocodeAmd.EncodedIsAccepted` | Rust/arch/microcode_format.rs:161-244 | conversely the encoding of such containers without a clash is accepted with that answer |
| `IdleGate.NoLostWake` | Rust/arch/cpu_idle.rs:314-336 | in every interleaving, a CPU in the wait whose gate was closed has been triggered, or the manager that closed it is about to write the monitored word; a gate stored as 0 is closed |
| `IdleGate.ClosedGateWakes` | Rust/arch/cpu_idle.rs:76-82 | so its next step leaves the wait without an interrupt |
| `IdleGate.TicketStable` | Rust/arch/cpu_idle.rs:273-286 | while a ticket is outstanding, the CPU's declaration and the policy are the ones the ticket was made from |
| `IdleGate.ChangeFindsNoTickets` | Rust/arch/cpu_idle.rs:96-118 | withdrawal, and likewise re-publication (156-181) and policy change (197-207), succeeds only when no affected CPU has a ticket |
| `IdleGate.StepKeeps` | Rust/arch/cpu_idle.rs:76-207 | every step of a CPU or of the manager keeps the invariant |
| `IdleGate.RunKeeps` | Rust/arch/cpu_idle.rs:156-207 | so does every run of them |
| `IdleProgress.Enters` | Rust/arch/cpu_idle.rs:217-336 | a CPU with a usable declaration, an enabled policy and an open gate enters the wait on a ticket for exactly these |
| `IdleProgress.AdmitIff` | Rust/arch/cpu_idle.rs:217-290 | no other CPU is admitted |
| `IdleProgress.LastLook` | Rust/arch/cpu_idle.rs:314-325 | a gate closed since the admission keeps the CPU out of the wait |
| `IdleProgress.Wakes` | Rust/arch/cpu_idle.rs:314-336 | the CPU stays in the wait until its word is written or an interrupt comes, then gives its ticket back |
| `IdleProgress.Completes` | Rust/arch/cpu_idle.rs:96-216 | every permitted operation of the manager is carried out by its own steps, for any number of CPUs |
| `IdleProgress.BusyResult` | Rust/arch/cpu_idle.rs:76-82 | with a ticket outstanding it changes nothing but the closed gates, and triggers every armed CPU behind one |
| `IdleProgress.PublishResult` | Rust/arch/cpu_idle.rs:156-181 | a published declaration gets a new revision and opens its gate exactly when it is usable under an enabled policy |
| `IdleProgress.PolicyResult` | Rust/arch/cpu_idle.rs:197-216 | a new policy opens exactly the gates of usable declarations, if it is enabled |
| `IdleProgress.WithdrawResult` | Rust/arch/cpu_idle.rs:96-118 | a withdrawn owner leaves no declaration and no policy behind, and those of others stay |
| `IdleProgress.OwnersOnly` | Rust/arch/cpu_idle.rs:142-146 | only the owner may begin to replace a declaration or the policy |
| `Mixer.Mix` | Rust/audio/mixer.rs:73-131 | whichever path is taken, an output of whole samples is the clamped sum of the scaled samples at (read_pos + 2k) mod len, if and only if not a single one-byte unit-gain source with a non-zero byte is mixed; in that case the byte is repeated; a unit-gain copy of any length is the bytes of the ring |
| `Mixer.ScaledExact` | Rust/audio/mixer.rs:162-175 | a scaled sample is the whole part of sample * volume / 65536, with the sign of the sample, for every volume |
| `Mixer.TotalJoin` | Rust/audio/mixer.rs:162-175 | the sum of two groups of sources is the sum of their sums |
| `Mixer.MixDirect` | Rust/audio/mixer.rs:80-91 | the two copies write the bytes of the ring from the read position on |
| `Mixer.MixCursors` | Rust/audio/mixer.rs:92-110 | the advancing-cursor path gives the clamped sum of scaled samples |
| `Mixer.MixIndexed` | Rust/audio/mixer.rs:111-131 | the modular-index path gives the same |
| `Mixer.CursorSample` | Rust/audio/mixer.rs:17-26 | the cursor reads the sample at its position modulo the length and stays in step with the index |
| `Mixer.DirectAgrees` | Rust/audio/mixer.rs:80-91 | the unit-gain copy agrees with the mix if and only if the output is empty, the ring holds a sample, or its only byte is zero |
| `Mixer.RingReadIs` | Rust/audio/mixer.rs:146-153 | the modular read is the sample of the specification |
| `Mixer.ByteRing.Write` | Rust/audio/mixer.rs:132-145 | appends the longest prefix of the data that fits to the queue, and returns its length |
| `Mixer.ByteRing.Consume` | Rust/audio/mixer.rs:154-161 | drops the oldest bytes of the queue, at most all of them |
| `Mixer.OverwriteAppends` | Rust/audio/mixer.rs:137-143 | copying around the end of the ring behind the used part appends to the queue |

## Left out

- In-place form of the concurrent protocols: CPU lifecycle, shootdown, COM1 admission, machine-check store and idle gate are transition systems on values, one step per atomic access, because their promises are about interleavings.
- Weak memory ordering: the fences and orderings of the atomics are not modelled.
- Liveness under every schedule, timeouts and the length of bounded waits: a wait may fail at any moment; proved are safety in every schedule and progress of threads that run undisturbed.
- MSR, CPUID, port I/O, MMIO, paging-structure contents and scheduling: abstract cells or environment choices.
- Probe leases, statistics, snapshots and error reasons of the CPU lifecycle: no step of the protocol reads them, apart from the claim, which is the one-controller assumption.
- Stack and identity checks of the CPU lifecycle (APIC identity, idle stack bounds): environment choices.
- Overflow of the 64-bit phase and of sample counters in the resampler, and the `Work` counters of resampler and mixer: integers are unbounded there.
- PcmProof.ChunkingIrrelevant: requires that every chunk with a frame was drained until it was reported done, because a caller that begins the next chunk earlier leaves frames out of the stream.
- Playback expectation, source checks, deadlines and starvation reports: they read the counters that are modelled.
- PlaybackDesk.RunKeeps: closing a stream drops its source; the reports that a closing stream still applies to itself before a failed release are not modelled.
- PlaybackDesk.PushSucceeds: the mixing itself and the driver callback between selection and submission are not part of the step.
- MtrrCompare.Mtrrs.Equivalent: the points are compared in the order they were collected, without the sort, which does not change which points are compared.
- PAT encoding, decoding and effective types: finite tables.
- SerialRing.SerialPort.Write: the call, span, stall and ring statistics are not modelled, only the dropped bytes and timeouts.
- SerialRing.SerialPort.Sync: the owner lock and the admission of each call are the subject of `SerialAdmission`; here a call is admitted or not.
- The close message of COM1 and the polling of its transmission: environment steps of the closer in `SerialAdmission`.
- Display C ABI, field layout and the read-only `retains_owner`: no behaviour beyond the fields.
- MachineCheckPublish.Publish: the layout of records in words is a parameter of which only the fields the store reads are known.
- MachineCheckStore.InfoAtomic: the live nested-error count that `info` adds afterwards is not part of the snapshot.
- MachineCheckCapture.Collect: the choice of a profile, the MCE enable rule and the unsafe-bank rule are not modelled.
- SHA-256 origin checks and the microcode catalog: finite constants.
- IdleGate.NoLostWake: wake-ups by interrupts are environment choices, and the choice of a C-state is one permitted target.
- Mixer.Mix: for one unit-gain source it requires a read position inside the ring and an output that the two copies can fill, and for all other sources an output of whole samples; the kernel panics otherwise.
