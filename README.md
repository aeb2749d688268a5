# FFT streaming engine and live order switching

This project models the audio core of a spectral bit-crusher plug-in:

- `FFTProcessor` is a per-channel streaming short-time Fourier transform engine. It holds a circular input FIFO and a circular output FIFO of `fftSize` samples, plus a `2 * fftSize` workspace. Each `processSample` call stores one sample and returns the pending output. Every `hopSize` calls it stages the input FIFO chronologically, windows it, applies the forward transform, the caller's spectral callback and the inverse transform, windows it again, scales it, and overlap-adds the frame into the output FIFO.
- `AudioPluginAudioProcessor` owns ten such engines: orders 8 to 12, one set for each stereo channel. Two maps select an engine by order. `processBlock` switches order live:
  - the requested pair is engaged only when both engines report ready;
  - the previous pair is retired;
  - a deferred `resetFFTs` is triggered through an async updater.

  `prepareToPlay` resets the left-channel engines.

The project has four modules:

| module | file | contents |
|---|---|---|
| `StftSpec` | `stft_spec.dfy` | One engine on values. `Step` is one `processSample`; `Run` is a block of them; `ResetOf` is `reset()`. Proved: cursor and hop arithmetic, the chronological staging, the overlap-add offsets, the transform-call count, that a bypassed sample comes back exactly `fftSize` calls later (the reported latency) scaled by the window gain of the hops in between, and that a bypassed engine is silent for one frame after reset. |
| `Engine` | `engine.dfy` | Class `FFTProcessor` over `array<real>`. Every method, and each buffer loop, is proved against `StftSpec`. |
| `Coordination` | `coordination.dfy` | The flag state machine of the coordinator on values: the switch decision, `resetFFTs`, `prepareToPlay` and the async delivery, as events over a `Sys` state. Also the lemmas behind the finding below. |
| `Plugin` | `plugin.dfy` | Class `AudioPluginAudioProcessor` over the ten engine objects and the two maps. Each method is proved against `Coordination`, and for the audio against `StftSpec.Run`. The ten engines are proved disjoint through an ownership map. |

On the frame transform:

- The forward FFT, the spectral callback (`bitcrush`) and the inverse FFT together form one abstract function `FrameTransform` on the workspace.
- They work in place on a fixed-size buffer, so the function's result is written over the workspace (`StftSpec.Overlay`).
- Samples are mathematical reals.

## Model

| member | source | states |
|---|---|---|
| StftSpec.HopSizeIsPow2 | Source/DSP/FFTProcessor.h:11-12 | `fftSize / overlap` with power-of-two sizes is exact, is a power of two, and is at least 1 whenever the overlap order does not exceed the frame order |
| StftSpec.Wrap | Source/DSP/FFTProcessor.h:45-47 | the cursor step `pos += 1; if (pos == fftSize) pos = 0` stays below the size |
| StftSpec.WrapIsMod | Source/DSP/FFTProcessor.h:45-47 | that cursor step is the successor modulo the size |
| StftSpec.Overlay | Source/DSP/FFTProcessor.h:65-70 | what an in-place transform leaves: the workspace keeps its length, takes the transform's entries where it has them and keeps its own beyond them |
| StftSpec.Rotate | Source/DSP/FFTProcessor.h:56-61 | the two-part copy reads the circular buffer from `start` to its end, then from 0 up to `start` |
| StftSpec.RotateIsModular | Source/DSP/FFTProcessor.h:56-61 | entry `i` of that copy is buffer entry `(start + i) mod size` |
| StftSpec.Stage | Source/DSP/FFTProcessor.h:56-61 | the copy fills the first `fftSize` workspace slots with the rotated input FIFO and leaves the upper half alone |
| StftSpec.StageElements | Source/DSP/FFTProcessor.h:57-61 | the staged workspace entry by entry: the first memcpy, the wrapped second memcpy, the untouched upper part |
| StftSpec.Windowed | Source/DSP/FFTProcessor.h:63 | `multiplyWithWindowingTable(fftPtr, fftSize)`: entry `i < n` is multiplied by window entry `i`; the entries from `n` on, the upper half of the workspace, are unchanged |
| StftSpec.Scaled | Source/DSP/FFTProcessor.h:80 | `FloatVectorOperations::multiply(fftPtr, windowCorrection, fftSize)`: the first `n` entries are multiplied by the gain; the rest are unchanged |
| StftSpec.HopFrame | Source/DSP/FFTProcessor.h:63-80 | a bypassed hop frame is, slot by slot, the staged sample times the window squared times the correction; its upper half is untouched |
| StftSpec.OverlapAdded | Source/DSP/FFTProcessor.h:83-90 | the two accumulation loops keep the FIFO's length and add frame entry `d` onto output slot `(pos + d) mod fftSize`, once for each `d` |
| StftSpec.SlotOffset | Source/DSP/FFTProcessor.h:83-90 | the loops' read offset `k - pos` (wrapped) undoes the slot `pos + d` (wrapped): every frame entry is read for exactly the slot it lands on |
| StftSpec.OverlapAddedIsModular | Source/DSP/FFTProcessor.h:83-90 | the two accumulation loops add onto output slot `k` exactly the frame entry `(k - pos) mod fftSize` |
| StftSpec.Step | Source/DSP/FFTProcessor.h:39-94 | one processSample keeps the buffer-size and cursor invariant; it completes a hop exactly when `count + 1 == hopSize`; it advances both cursors by the wrap step |
| StftSpec.Run | Source/DSP/FFTProcessor.h:39-94 | processSample over a block keeps the invariant, returns one sample per input, and calls the transform once per hop unless bypassed |
| StftSpec.ResetOf | Source/DSP/FFTProcessor.h:21-30 | reset changes neither the overlap, nor the window correction, nor the workspace |
| StftSpec.ResetIdempotent | Source/DSP/FFTProcessor.h:21-30 | reset twice is reset once; a reset state is quiet (cursors 0, both FIFOs zero); reset keeps the invariant |
| StftSpec.StepBookkeeping | Source/DSP/FFTProcessor.h:41-52 | the returned sample is the pending output at the old cursor; the input is stored there; `pos` and `count` advance modulo `fftSize` and `hopSize`; a call without a hop changes only the two slots at the old cursor; a hop writes the hop frame into the workspace |
| StftSpec.HopStagesChronologically | Source/DSP/FFTProcessor.h:53-61 | on a hop, workspace slot `i` before windowing is input slot `(pos + i) mod fftSize`, counted from the advanced cursor, and the upper half is kept |
| StftSpec.HopOverlapAddAt | Source/DSP/FFTProcessor.h:82-90 | on a hop, output slot `k` is its cleared value plus exactly one frame entry, at offset `k - pos` wrapped |
| StftSpec.BypassFrameAt | Source/DSP/FFTProcessor.h:56-80 | a bypassed frame, read at the offset that lands on slot `k`, is input sample `k` times the window squared and the correction |
| StftSpec.BypassHopContribution | Source/DSP/FFTProcessor.h:63-90 | a bypassed hop adds onto output slot `k` exactly input sample `k` times the window squared and the correction |
| StftSpec.RunSteps | Source/DSP/FFTProcessor.h:45-52 | over a block, each cursor moves as that many wrap steps, the hops are those steps that complete one, and the overlap and the correction stay fixed |
| StftSpec.RunCursor | Source/DSP/FFTProcessor.h:45-47 | over L samples the shared cursor advances by L modulo `fftSize` |
| StftSpec.RunHops | Source/DSP/FFTProcessor.h:49-52 | over L samples the hop counter advances by L modulo `hopSize`, and exactly `(count + L) / hopSize` hops complete |
| StftSpec.TransformCallsFromReset | Source/DSP/FFTProcessor.h:49-70 | from a reset counter, not bypassed, the spectral callback runs exactly `floor(L / hopSize)` times over L samples |
| StftSpec.LatencyRevisit | Source/DSP/FFTProcessor.h:45-47 | the slot a sample is written to is read again after exactly `fftSize` samples and not before (the cursor side of the latency; `BypassDelay` states the returned value) |
| StftSpec.EchoFactors | Source/DSP/FFTProcessor.h:63-80 | the echo of a bypassed sample is the sample times the correction times the window gain: the sum of `window[fftSize - 1 - i]^2` over the calls `i` that complete a hop |
| StftSpec.EchoStep | Source/DSP/FFTProcessor.h:41-90 | one more bypassed call after a sample went in keeps that sample in its input slot, adds the hop's contribution at offset `fftSize - 1 - i` onto its output slot, and advances both cursors; the first call clears the slot first |
| StftSpec.EchoPrefix | Source/DSP/FFTProcessor.h:41-90 | after each of the first `fftSize` calls of a block, the first sample's output slot holds the echo of the hops so far |
| StftSpec.EchoReturned | Source/DSP/FFTProcessor.h:41-47 | the call after `fftSize` calls is back at the first sample's slot and returns the echo collected there |
| StftSpec.RunLast | Source/DSP/FFTProcessor.h:39-94 | the last output of a block is the output of its last processSample |
| StftSpec.BypassDelay | Source/DSP/FFTProcessor.h:41-96 | bypassed, output `fftSize` of a block, the reported latency, is the block's first sample echoed through the hops in between; the samples fed in between do not affect it |
| StftSpec.BypassQuietStep | Source/DSP/FFTProcessor.h:41-90 | a bypassed call at cursor `m`, with the slots from `m` on still zero, returns zero and leaves the slots from `m + 1` on zero |
| StftSpec.BypassSilentAfterReset | Source/DSP/FFTProcessor.h:21-96 | bypassed, the first `fftSize` samples after a reset come out zero whatever the input |
| StftSpec.RunExtend | Source/DSP/FFTProcessor.h:39-94 | a run over one more sample is that run followed by one processSample |
| Engine.CopyChronological | Source/DSP/FFTProcessor.h:56-61 | the two memcpy loops leave the workspace equal to `Stage` of the old workspace |
| Engine.MultiplyWithWindowingTable | Source/DSP/FFTProcessor.h:63 | the first `n` entries are multiplied by the window table entry of the same index; the rest are unchanged |
| Engine.MultiplyBy | Source/DSP/FFTProcessor.h:80 | the first `n` entries are multiplied by the gain; the rest are unchanged |
| Engine.TransformInPlace | Source/DSP/FFTProcessor.h:67-69 | the workspace afterwards is the transform's result written over it in place |
| Engine.AddFrame | Source/DSP/FFTProcessor.h:83-90 | the two accumulation loops leave the output FIFO equal to `OverlapAdded` of the old one |
| Engine.FillZero | Source/DSP/FFTProcessor.h:26-27 | `std::fill` with zero: every entry is 0 |
| Engine.FFTProcessor.constructor | Source/DSP/FFTProcessor.h:10-19 | `fftSize = 2^order`, `overlap = 2^overlapOrder`, `hopSize = fftSize / overlap`, `numBins = fftSize/2 + 1`, `windowCorrection = 1/(0.375 * overlap)`; FIFOs and workspace zero; cursors 0; ready and not in use |
| Engine.FFTProcessor.OutOfLine | Source/DSP/FFTProcessor.cpp:3-11 | the out-of-line constructor: the same, except that the correction is `1/(0.33 * overlap)` and the hop size is whatever the uninitialised read of `overlap` produced |
| Engine.FFTProcessor.Reset | Source/DSP/FFTProcessor.h:21-30 | the stream state becomes `ResetOf` of the old one; the engine is ready and not in use |
| Engine.FFTProcessor.ResetOutOfLine | Source/DSP/FFTProcessor.cpp:13-21 | the out-of-line reset: the same, except that `inUse` is kept |
| Engine.FFTProcessor.HandleHopSizeChange | Source/DSP/FFTProcessor.h:32-36 | the overlap becomes `2^overlapOrder` and the correction 2/3, whatever the argument; the hop size, the cursors, the buffers and the flags are kept |
| Engine.FFTProcessor.ProcessSample | Source/DSP/FFTProcessor.h:38-94 | new stream state and returned sample are exactly `StftSpec.Step` of the old state; the flags are kept |
| Engine.FFTProcessor.Hop | Source/DSP/FFTProcessor.h:53-90 | the workspace becomes the hop frame of the chronologically staged input, and the output FIFO is that frame overlap-added at the cursor |
| Engine.FFTProcessor.GetLatencyInSamples | Source/DSP/FFTProcessor.h:96 | returns `fftSize` |
| Engine.FFTProcessor.IsFFTReady | Source/DSP/FFTProcessor.h:97 | returns `isReady` |
| Engine.FFTProcessor.PrepFFTForReset | Source/DSP/FFTProcessor.h:98 | clears both flags and changes no stream state |
| Engine.FFTProcessor.IsFFTInUse | Source/DSP/FFTProcessor.h:99 | returns `inUse` |
| Engine.FFTProcessor.SetFFTInUse | Source/DSP/FFTProcessor.h:100 | sets `inUse` only |
| Engine.FFTProcessor.SetFFTReady | Source/PluginProcessor.cpp:171-172 | sets `isReady` only |
| Coordination.InitialPool | Source/PluginProcessor.h:73-83 | every pooled engine starts ready and not in use |
| Coordination.Retired | Source/PluginProcessor.cpp:171-172 | a retired engine is not ready; it keeps `inUse` as written and loses it under the correction |
| Coordination.SwitchStep | Source/PluginProcessor.cpp:163-176 | no switch when the order is unchanged; the reset is triggered exactly when the requested and the current order are pooled and the requested pair is ready; a throw happens exactly on a non-pooled requested order, or on a non-pooled current order met when the pair is ready, with the new pair already marked in use; on a commit the new pair is in use, the old pair is retired and the selection moves; no other engine changes; no engine's `ready` is ever raised |
| Coordination.MarkPairMarks | Source/PluginProcessor.cpp:169-170 | `setFFTInUse(true)` on both engines of the requested order sets their `inUse`, keeps their `ready`, and changes no other engine and no key |
| Coordination.RetirePairRetires | Source/PluginProcessor.cpp:171-172 | the retired pair is not ready; it keeps `inUse` as written and loses it under the correction; no other engine and no key changes |
| Coordination.AsWrittenKeepsInUse | Source/PluginProcessor.cpp:163-176 | an as-written switch never clears an engine's `inUse` |
| Coordination.PoliciesAgree | Source/PluginProcessor.cpp:163-176 | the two retirement policies decide the same selection, trigger and throw, and differ only on the retired pair |
| Coordination.ResetUnused | Source/PluginProcessor.cpp:134-146 | in both maps an engine not in use becomes ready and not in use; an engine in use is untouched |
| Coordination.ResetUnusedIdempotent | Source/PluginProcessor.cpp:134-146 | resetFFTs twice is resetFFTs once, and afterwards every engine is ready or in use |
| Coordination.PrepareFlags | Source/PluginProcessor.cpp:94-99 | every left engine is ready and not in use; the right map's flags are unchanged |
| Coordination.ApplyEffects | Source/PluginProcessor.cpp:163-176 | a block moves the selection only to the requested order and asks for the deferred reset exactly when it moves it, a request already pending staying pending (`triggerAsyncUpdate` coalesces, line 173); a delivered reset (PluginProcessor.h lines 16-19) runs resetFFTs once and clears the request, and without one does nothing; prepareToPlay resets the left flags only and keeps selection and request |
| Coordination.Initial | Source/PluginProcessor.cpp:20-21 | right after construction every pooled engine is ready and not in use, `lastOrder` is the order parameter's value and no reset is pending |
| Coordination.RightChannelStuck | Source/PluginProcessor.cpp:134-176 | as written, a right engine that is in use, not ready and not selected stays so under every sequence of blocks, async resets and prepareToPlay calls |
| Coordination.StuckRetirementReachable | Source/PluginProcessor.cpp:163-176 | as written, from order 11 the round trip 11 to 10 to 11, with the deferred resets delivered, strands order 10: it is never selected again, whatever follows |
| Coordination.RetiringInvStep | Source/PluginProcessor.cpp:134-176 | under the correction, every event keeps this invariant: no engine outside the selected order is in use, and with no reset pending every such engine is ready |
| Coordination.RetiringInvTrace | Source/PluginProcessor.cpp:134-176 | the corrected coordinator keeps that invariant over any event sequence |
| Coordination.RetiringAlwaysSwitches | Source/PluginProcessor.cpp:163-176 | under the correction, once no reset is pending, the next block honours any pooled order |
| Coordination.RetiringRoundTripRecovers | Source/PluginProcessor.cpp:163-176 | under the correction, after the same round trip, order 10 can be selected again |
| Coordination.OutOfPoolRequestThrows | Source/PluginProcessor.cpp:165-166 | an order parameter outside 8..12 is not clamped: the lookup throws, and flags, selection and the trigger are untouched |
| Plugin.AudioPluginAudioProcessor.constructor | Source/PluginProcessor.h:73-90 | ten valid, pairwise disjoint engines, `fftNLeft`/`fftNRight` constructed as `(N, 2)`: order N, size `2^N`, overlap 4, hop `2^N / 4`, correction `1/(0.375 * 4)`, the Hann table of order N, cursors 0, FIFOs and workspace zero; the maps key orders 8..12 to them; all flags fresh; `lastOrder` is the order parameter's value (PluginProcessor.cpp lines 20-21); no reset pending |
| Plugin.NewLayout | Source/PluginProcessor.h:73-86 | the ten engines and the two maps as the coordinator holds them: each map keys orders 8..12 to its own channel's engines, the engines own disjoint objects, each is `(order, 2)` as constructed, with fresh flags |
| Plugin.NewPool | Source/PluginProcessor.h:73-83 | the ten engines in pool order; each is `(order, 2)` as constructed (overlap 4, its Hann table, zero FIFOs and workspace, cursors 0), ready and not in use, and owns objects no other engine owns |
| Plugin.NewEngine | Source/PluginProcessor.h:73-83 | one `FFTProcessor{order, 2}`: size `2^order`, hop a quarter of it, overlap 4, correction `1/(0.375 * 4)`, the given table, everything zero, ready and not in use |
| Plugin.PoolMapsOver | Source/PluginProcessor.h:85-86 | each map holds exactly the orders 8..12, each to its own channel's engine of that order |
| Plugin.AudioPluginAudioProcessor.ProcessBlock | Source/PluginProcessor.cpp:148-209 | the new flags, selection and pending request are those of one `Block` event of the coordinator; the block ends in a throw exactly when the switch throws, or when the selected order is unpooled and the block is not empty; a throwing block leaves both channels unchanged |
| Plugin.AudioPluginAudioProcessor.Switch | Source/PluginProcessor.cpp:163-176 | flags, `lastOrder`, the throw and the pending trigger are exactly `SwitchStep`'s; no stream state changes |
| Plugin.AudioPluginAudioProcessor.Engage | Source/PluginProcessor.cpp:165-170 | both engines of the requested order become in use, and nothing else changes |
| Plugin.AudioPluginAudioProcessor.Complete | Source/PluginProcessor.cpp:171-174 | a pooled current pair is retired, the reset triggered and the selection moved; an unpooled one throws with nothing else changed |
| Plugin.AudioPluginAudioProcessor.Retire | Source/PluginProcessor.cpp:171-172 | both engines of the current order are retired under the object's policy |
| Plugin.AudioPluginAudioProcessor.MarkRetired | Source/PluginProcessor.cpp:171 | one engine retired: `setFFTReady(false)` as written, `prepFFTForReset()` under the correction |
| Plugin.AudioPluginAudioProcessor.MarkInUse | Source/PluginProcessor.cpp:169 | one engine marked in use, and no other flag changes |
| Plugin.AudioPluginAudioProcessor.RouteBlock | Source/PluginProcessor.cpp:201-207 | both channels went through the selected pair: each engine ends in the state of one `Run` over its channel; each channel holds that run's outputs; every other engine's stream state and all flags are unchanged; an unpooled selection throws before any sample |
| Plugin.AudioPluginAudioProcessor.RouteSelected | Source/PluginProcessor.cpp:201-207 | with a pooled selection, each channel went through its engine of that order as one `Run`, and every other engine's stream state and all flags are unchanged |
| Plugin.Route | Source/PluginProcessor.cpp:203-207 | the per-sample loop leaves the left engine and channel as one `Run` over the left input and likewise on the right; nothing outside the pair and the channels changes |
| Plugin.Stream | Source/PluginProcessor.cpp:203-207 | sample by sample, left through the left engine and right through the right one, each written back in place: each channel ends as one `Run` of its engine over the block, and both engines stay valid |
| Plugin.PrefixStep | Source/PluginProcessor.cpp:205-206 | writing one step's output back over its input extends the processed prefix by one sample |
| Plugin.AudioPluginAudioProcessor.ResetFFTs | Source/PluginProcessor.cpp:134-146 | the flags become `ResetUnused`: each engine not in use is reset to `ResetOf`, and each engine in use keeps its stream state |
| Plugin.AudioPluginAudioProcessor.ResetSide | Source/PluginProcessor.cpp:136-140 | one loop over one map in key order: the engines of that side are reset (or, skipping in-use ones, conditionally); the other side is untouched |
| Plugin.AudioPluginAudioProcessor.ResetAt | Source/PluginProcessor.cpp:138-139 | one iteration: the engine is reset unless skipped because in use; the other nine are unchanged |
| Plugin.BothSidesReset | Source/PluginProcessor.cpp:134-146 | the left loop followed by the right loop clears exactly what `ResetUnused` clears |
| Plugin.AudioPluginAudioProcessor.HandleAsyncUpdate | Source/PluginProcessor.h:16-19 | a pending trigger is delivered once, as resetFFTs, and cleared; with nothing pending nothing changes |
| Plugin.AudioPluginAudioProcessor.PrepareToPlay | Source/PluginProcessor.cpp:94-99 | every left engine is reset, in use or not, and ends ready and not in use; right engines, selection and pending trigger are unchanged |
| Plugin.PreparedLeft | Source/PluginProcessor.cpp:94-99 | the loop over the left map gives exactly the `Prepare` event's flags |

## Left out

- The forward and inverse FFT, the `bitcrush` callback (PluginProcessor.cpp lines 178-199) and the Hann table are not computed here. The three transforms are one abstract `FrameTransform`. The Hann table of each order is a parameter of the constructors.
- Single-precision float rounding: samples are reals, so `.375f`, `.33f` and `2.f / 3.f` are exact rationals.
- Threads and the JUCE message loop: a `triggerAsyncUpdate` is a pending flag, coalesced until `HandleAsyncUpdate` delivers it. Interleavings of the audio thread with that delivery are not modelled.
- Buses, channel clearing (PluginProcessor.cpp lines 157-158), `ScopedNoDenormals`, MIDI, parameter objects, the editor, the oversampling gain and `lastHopSize`. The order parameter's value is an argument, and a block is two equal-length channel arrays.
- Plugin.AudioPluginAudioProcessor.ProcessBlock: the per-sample routing is stated on `RouteBlock`, relative to the state the switch leaves. ProcessBlock's own contract states the switch outcome, the throw condition and the untouched channels on a throw, but not the channels' new contents.
- Plugin.AudioPluginAudioProcessor.PrepareToPlay: its coordinator state is stated as the `Prepare` case of `Apply`, written out directly (`s.(pool := PrepareFlags(s.pool))`).
- Plugin.AudioPluginAudioProcessor.RouteBlock: the source looks up `fftMapLeft.at(lastOrder)` and `fftMapRight.at(lastOrder)` on every sample. The model looks them up once, since the maps and `lastOrder` cannot change inside the loop. An unpooled order therefore throws before the first sample, as the source's first lookup does.
- `setFFTReady` is called (PluginProcessor.cpp lines 171-172) but FFTProcessor.h does not declare it. It is modelled as assigning `isReady` only, the counterpart of `setFFTInUse`.
- FFTProcessor.h and FFTProcessor.cpp both define the constructor and `reset()`. The header versions are the ones the pool uses. The out-of-line versions are modelled as `OutOfLine` and `ResetOutOfLine`. The out-of-line constructor computes `hopSize` from `overlap` before the body assigns it. The resulting value cannot be derived from the arguments, so it is a parameter there (at least 1).
- 32-bit `int` overflow of `1 << order` and of the counters: orders are at most 12, so no shift in the pool can overflow. `count` and `pos` stay below `fftSize`.
- Plugin.NewPool: the source declares the ten engines as ten member initialisers (PluginProcessor.h lines 73-83). The model creates them in a loop over pool positions, in the same order.

## Findings

| source | as written | input that shows it | evidently intended | confidence | as-written member | corrected member |
|---|---|---|---|---|---|---|
| Source/PluginProcessor.cpp:171-172 | A committed switch only clears `ready` on the retired pair. `resetFFTs` skips engines in use, and nothing else clears `inUse` on the right channel. So a retired right engine stays in use and not ready, and its order can never be selected again. | Order parameter 11 at construction; blocks with order 10, then 11, each followed by the async reset. Order 10 is then stranded for good. | Retire with `prepFFTForReset()` (FFTProcessor.h line 98), so both flags clear and the deferred reset makes the pair ready again | not executed | Coordination.StuckRetirementReachable | Coordination.RetiringRoundTripRecovers |
