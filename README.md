# sfizz-unity scheduling core in Dafny

sfizz-unity drives the native sfizz synthesizer from Unity in two ways. This
project models the scheduling logic of both and proves what it promises.

- **The offline MIDI renderer** (`SfizzMidiRenderer`) turns a MIDI file into
  audio clips. It has three parts:
  - a router, `SfizzArray`, that gives every channel its own instrument. Each
    instrument is loaded on first use, and a failed load is never retried.
  - a block scheduler, `RenderEvents`. It walks the time-ordered events,
    renders the clip in blocks of `MaxBlockSize` frames, and hands each channel
    event to its instrument at a delay inside the block.
  - an accumulating interleaver, `RenderBuffer` and `InterleaveAdd`. It sums
    every live instrument's stereo block into one interleaved buffer.
- **The streaming player** (`SfizzPlayer`) renders, every frame, just enough
  audio into a looping clip to last until the next frame. Its rounding error
  is carried from tick to tick. When the play cursor drifts too far from the
  write cursor, the player moves it back to the write cursor.

Modules:

- `SfizzEngine`: the synthesizer, seen only through the calls the core makes.
  Its `RenderBlock` demands `0 < numFrames <= samplesPerBlock`.
- `Midi`: timed events, already in output frames.
- `Instruments`: the router, as a class over the two slot arrays.
- `Mixer`: interleaving and mixing.
- `ClipData`: the clip write, which wraps past the end of the clip.
- `BlockSchedule`: the renderer's block schedule, as pure functions. It has
  two versions: the guard as written and the corrected one.
- `MidiRenderer`: the imperative renderer. It is proved against the corrected
  schedule.
- `StreamClock`: the player's per-tick arithmetic, over reals.
- `StreamingPlayer`: the player, as a class with its fields.
- `Arith`: integer lemmas.

## Model

| member | source | states |
|---|---|---|
| SfizzEngine.Sfizz.constructor | Packages/sfizz-unity/Runtime/Sfizz.cs:32-37 | A new instance is initialized, has nothing loaded (silence), has received no events and has rendered nothing. |
| SfizzEngine.Sfizz.LoadFile | Packages/sfizz-unity/Runtime/Sfizz.cs:53-56 | Succeeds exactly when the library can load the file. On success the instance sounds like that file; nothing else changes. |
| SfizzEngine.Sfizz.SetSampleRate | Packages/sfizz-unity/Runtime/Sfizz.cs:138-141 | Sets the sample rate and changes nothing else. |
| SfizzEngine.Sfizz.SetSamplesPerBlock | Packages/sfizz-unity/Runtime/Sfizz.cs:133-136 | Sets the block size and changes nothing else. |
| SfizzEngine.Sfizz.Send | Packages/sfizz-unity/Runtime/Sfizz.cs:143-231 | Appends the message, its delay and the current frame count to the events received; nothing else changes. |
| SfizzEngine.Sfizz.RenderBlock | Packages/sfizz-unity/Runtime/Sfizz.cs:233-251 | Needs `0 < numFrames <= samplesPerBlock`. Fills the first `numFrames` frames of both planar buffers with the next frames of the instrument's output, leaves the rest of the buffers alone, and advances the frame count by `numFrames`. |
| SfizzEngine.Sfizz.Dispose | Packages/sfizz-unity/Runtime/Sfizz.cs:39-44 | The instance is released; its sound, events and frame count are kept. |
| Instruments.SfizzArray.constructor | Packages/sfizz-unity/Runtime/SfizzMidiRenderer.cs:60-65 | One empty, unattempted slot per path; not singular; no loads yet. |
| Instruments.SfizzArray.Single | Packages/sfizz-unity/Runtime/SfizzMidiRenderer.cs:70-76 | One empty, unattempted slot for the one path; singular. |
| Instruments.SfizzArray.GetSfizz | Packages/sfizz-unity/Runtime/SfizzMidiRenderer.cs:88-117 | The result is non-null exactly when `c` is in range and its file loads, and it is then tuned to the clip. Out of range: null, and no slot and no load changes. An attempted slot returns what it holds, the same instance or null for good, and loads nothing. An unattempted slot is attempted exactly once, here. No other slot changes. |
| Instruments.SfizzArray.Open | Packages/sfizz-unity/Runtime/SfizzMidiRenderer.cs:97-106 | Returns a fresh instance, loaded and tuned to the clip's rate and `MaxBlockSize`, exactly when the file loads; otherwise returns null. |
| Instruments.SfizzArray.Get | Packages/sfizz-unity/Runtime/SfizzMidiRenderer.cs:78-80 | The indexer: `GetSfizz`'s contract for slot 0 in singular mode, and for the channel's own slot otherwise. |
| Instruments.SfizzArray.Dispose | Packages/sfizz-unity/Runtime/SfizzMidiRenderer.cs:82-86 | Every live instrument is released; their sound, events and frame counts are kept. |
| Mixer.Interleaved | Packages/sfizz-unity/Runtime/SfizzPlayer.cs:182-190 | Frame `i` of the left channel is at `2i`, frame `i` of the right channel at `2i+1`, and the length is twice the frame count. |
| Mixer.SplitInterleaved | Packages/sfizz-unity/Runtime/SfizzPlayer.cs:182-190 | Taking the even and the odd samples of an interleaved buffer gives back both channels. |
| Mixer.InterleaveSplit | Packages/sfizz-unity/Runtime/SfizzPlayer.cs:182-190 | Every buffer of even length is the interleaving of its even and odd samples. |
| Mixer.FramesInterleaved | Packages/sfizz-unity/Runtime/SfizzPlayer.cs:182-190 | A buffer holding the two channels' frames at the interleaved positions equals their interleaving. |
| Mixer.AddedFrames | Packages/sfizz-unity/Runtime/SfizzMidiRenderer.cs:257-262 | A buffer holding base plus each frame at the interleaved positions, and base beyond them, is the interleaved block added onto base. |
| Mixer.Mix | Packages/sfizz-unity/Runtime/SfizzMidiRenderer.cs:243-255 | The sum RenderBuffer builds: every slot's block added onto the base, first slot to last; the result is as long as the base. |
| Mixer.MixAppend | Packages/sfizz-unity/Runtime/SfizzMidiRenderer.cs:245-254 | Mixing one more slot's block adds that block onto the mix so far. |
| Mixer.MixAt | Packages/sfizz-unity/Runtime/SfizzMidiRenderer.cs:243-255 | Each sample of a mix is the base sample plus the sum of every block's sample there. An empty block (a slot with no instrument) adds nothing. |
| Mixer.MixFromSilence | Packages/sfizz-unity/Runtime/SfizzMidiRenderer.cs:185-186 | Into a cleared accumulator, each sample of the mix is exactly the sum over the slots' blocks. |
| Mixer.Clear | Packages/sfizz-unity/Runtime/SfizzMidiRenderer.cs:185 | Every sample becomes 0. |
| Mixer.InterleaveAdd | Packages/sfizz-unity/Runtime/SfizzMidiRenderer.cs:257-262 | The accumulator becomes its old contents plus the interleaved first `samples` frames; samples from `2·samples` on are unchanged. |
| ClipData.RingWrite | Packages/sfizz-unity/Runtime/SfizzPlayer.cs:110 | `AudioClip.SetData`: the data replaces the clip's samples from `start` on, continuing at the clip's start past its end; every other sample is kept, and the length is the clip's. |
| ClipData.RingWriteReadBack | Packages/sfizz-unity/Runtime/SfizzPlayer.cs:110 | After a wrapping write, sample `k` of the data sits at `(start + k) mod |clip|`. |
| ClipData.RingWriteInside | Packages/sfizz-unity/Runtime/SfizzMidiRenderer.cs:187 | A write that ends inside the clip replaces exactly `[start, start + |data|)` and keeps the rest. |
| ClipData.RingWriteNothing | Packages/sfizz-unity/Runtime/SfizzPlayer.cs:110 | Writing no data leaves the clip unchanged. |
| ClipData.SetData | Packages/sfizz-unity/Runtime/SfizzPlayer.cs:110 | The clip becomes the wrapping write of the data at the frame offset. |
| Midi.Duration | Packages/sfizz-unity/Runtime/SfizzMidiRenderer.cs:149-157 | `totalDuration`: the frame of the last event of any kind, and 0 for no events. |
| BlockSchedule.BlocksToSkip | Packages/sfizz-unity/Runtime/SfizzMidiRenderer.cs:182-189 | The number of full blocks the catch-up loop writes for an event `d` frames past the offset: `(d - 1) / B` (0 for `d == 0`) under the guard as written, `time > offset + B`; `d / B` under the corrected `time >= offset + B`. |
| BlockSchedule.Process | Packages/sfizz-unity/Runtime/SfizzMidiRenderer.cs:167-231 | One pass of the event loop: a non-channel event or one before the offset changes nothing; a channel event first adds the skipped full blocks and advances the offset by them, then is routed on its channel with delay `time % B`. |
| BlockSchedule.Run | Packages/sfizz-unity/Runtime/SfizzMidiRenderer.cs:160-232 | The event loop over all events in order, from offset 0 and no blocks. |
| BlockSchedule.ScheduleAsWritten | Packages/sfizz-unity/Runtime/SfizzMidiRenderer.cs:149-238 | The whole render as written: nothing for no events; otherwise the loop under `time > offset + B`, then one final block of `totalDuration - offset` frames at the offset, whatever its size. |
| BlockSchedule.Schedule | Packages/sfizz-unity/Runtime/SfizzMidiRenderer.cs:149-238 | The corrected render: the loop under `time >= offset + B`, then the tail as full blocks and one non-empty remainder (`Cover`). |
| BlockSchedule.CoverTiles | Packages/sfizz-unity/Runtime/SfizzMidiRenderer.cs:234-238 | The corrected tail tiles `[from, total)`: its blocks are consecutive, non-empty and at most `B` frames. |
| BlockSchedule.CoverSplit | Packages/sfizz-unity/Runtime/SfizzMidiRenderer.cs:182-189 | Full blocks up to the offset, followed by the tail from the offset, are the tail from the start. |
| BlockSchedule.ProcessShape | Packages/sfizz-unity/Runtime/SfizzMidiRenderer.cs:177-189 | One event keeps the blocks written consecutive full blocks from frame 0, with the offset at their end. |
| BlockSchedule.RunShape | Packages/sfizz-unity/Runtime/SfizzMidiRenderer.cs:160-189 | `offset` starts at 0 and only grows by whole blocks. It is always `B` times the number of blocks written, and those are full blocks from frame 0 on. |
| BlockSchedule.SkipFits | Packages/sfizz-unity/Runtime/SfizzMidiRenderer.cs:182-189 | The blocks skipped before an event never pass its time, under either guard. |
| BlockSchedule.RunOffsetBound | Packages/sfizz-unity/Runtime/SfizzMidiRenderer.cs:177-189 | The offset never passes a bound on every event time. |
| BlockSchedule.SortedOffsetBound | Packages/sfizz-unity/Runtime/SfizzMidiRenderer.cs:154-189 | On time-ordered input the offset never passes the clip's length, so no full block reaches past the clip. |
| BlockSchedule.LandsInBlock | Packages/sfizz-unity/Runtime/SfizzMidiRenderer.cs:182-198 | The delay `time % B` lies in `[0, B)` and equals the event's distance from its block's start. Under the guard as written, the exception is an event exactly `B` frames past the block's start, which gets delay 0. |
| BlockSchedule.ProcessDispatched | Packages/sfizz-unity/Runtime/SfizzMidiRenderer.cs:182-198 | One more event keeps every routed event placed correctly in its block. |
| BlockSchedule.RunDispatched | Packages/sfizz-unity/Runtime/SfizzMidiRenderer.cs:162-198 | Every routed event's delay lies in `[0, B)` and places it at its own time in the block it is rendered with. Under the guard as written, an event exactly one block past the offset is the exception. |
| BlockSchedule.ProcessRoutes | Packages/sfizz-unity/Runtime/SfizzMidiRenderer.cs:167-198 | One event adds itself to the routed events if it is a channel event, and nothing otherwise. |
| BlockSchedule.RunRoutesChannelEvents | Packages/sfizz-unity/Runtime/SfizzMidiRenderer.cs:162-231 | On time-ordered input the events routed are exactly the channel events, in input order, none dropped. |
| BlockSchedule.ScheduleTiles | Packages/sfizz-unity/Runtime/SfizzMidiRenderer.cs:182-238 | The corrected schedule's blocks tile the whole clip `[0, duration)`: each is non-empty and at most `B` frames, and each follows the previous one. |
| BlockSchedule.ScheduleDispatches | Packages/sfizz-unity/Runtime/SfizzMidiRenderer.cs:162-231 | The corrected schedule routes exactly the channel events, in order, each at a delay in `[0, B)` that places it at its own time in its block. |
| BlockSchedule.AsWrittenFinalBlock | Packages/sfizz-unity/Runtime/SfizzMidiRenderer.cs:234-238 | As written, when the last event is a channel event, the blocks are full blocks from 0 and then one final block of `duration - offset` frames, which lies in `[0, B]`. |
| BlockSchedule.AsWrittenBlocks | Packages/sfizz-unity/Runtime/SfizzMidiRenderer.cs:234-238 | As written, the blocks are full blocks from frame 0 up to the offset, then the final block. |
| BlockSchedule.AsWrittenLastLands | Packages/sfizz-unity/Runtime/SfizzMidiRenderer.cs:182-189 | As written, a channel event at the end of the input lies at most `B` frames past the final offset. |
| BlockSchedule.EarlyDispatchAsWritten | Packages/sfizz-unity/Runtime/SfizzMidiRenderer.cs:182-198 | An event at frame `B` is sent at delay 0 with no block rendered before it, one block early. The corrected guard first renders block 0. |
| BlockSchedule.EmptyFinalBlockAsWritten | Packages/sfizz-unity/Runtime/SfizzMidiRenderer.cs:235-237 | One event at frame 0: as written, a final block of 0 frames is asked for; the corrected tail renders nothing. |
| BlockSchedule.OversizedFinalBlockAsWritten | Packages/sfizz-unity/Runtime/SfizzMidiRenderer.cs:154-237 | A trailing non-channel event `3B` frames after the only note: as written, one final block of `3B` frames is asked for; the corrected tail renders three full blocks. |
| MidiRenderer.PlayInto | Packages/sfizz-unity/Runtime/SfizzMidiRenderer.cs:252-253 | The instrument advances by `n` frames, and its last `n` frames, interleaved, are added onto the accumulator. |
| MidiRenderer.ResolveAndPlay | Packages/sfizz-unity/Runtime/SfizzMidiRenderer.cs:246-253 | Slot `c` is resolved, and loaded on first use. If it has an instrument, that instrument renders `n` frames onto the accumulator; otherwise nothing is added. Every other slot and instrument is unchanged. |
| MidiRenderer.RenderSlot | Packages/sfizz-unity/Runtime/SfizzMidiRenderer.cs:245-254 | One loop step of the block render: the slots done so far, and their contributions, grow by slot `c`. |
| MidiRenderer.SlotDone | Packages/sfizz-unity/Runtime/SfizzMidiRenderer.cs:245-254 | Resolving and playing slot `c` extends the per-slot record and leaves every other slot's instrument and frame count as it was. |
| MidiRenderer.RenderBuffer | Packages/sfizz-unity/Runtime/SfizzMidiRenderer.cs:243-255 | Every slot is resolved. Each instrument that was live advances by exactly `n` frames. The accumulator becomes its old contents plus each slot's block: that instrument's last `n` frames, or nothing for an empty slot. |
| MidiRenderer.RenderBlockToClip | Packages/sfizz-unity/Runtime/SfizzMidiRenderer.cs:185-187 | The mix of one block from every slot is written into the clip at the offset; the rest of the clip is unchanged. |
| MidiRenderer.WriteInside | Packages/sfizz-unity/Runtime/SfizzMidiRenderer.cs:187 | The accumulator replaces exactly the clip's frames `[offset, offset + n)`. |
| MidiRenderer.WrittenBlock | Packages/sfizz-unity/Runtime/SfizzMidiRenderer.cs:187-188 | After a block is written at the offset, the clip's prefix is the blocks written so far plus that one. |
| MidiRenderer.WriteBlock | Packages/sfizz-unity/Runtime/SfizzMidiRenderer.cs:185-188 | One block rendered from silence extends the written prefix of the clip by that block, recorded in the trace. |
| MidiRenderer.FullBlock | Packages/sfizz-unity/Runtime/SfizzMidiRenderer.cs:185-188 | The accumulator is cleared, and one full block is written at the offset. |
| MidiRenderer.CatchUp | Packages/sfizz-unity/Runtime/SfizzMidiRenderer.cs:182-189 | Under the corrected guard `time >= offset + B`, exactly `(time - offset) / B` full blocks are written. Afterwards the event time lies inside the current block, and what every instrument has received is still its share of the events routed so far. |
| MidiRenderer.RouteAfterBlocks | Packages/sfizz-unity/Runtime/SfizzMidiRenderer.cs:182-198 | With the blocks before it written, a channel event is the next step of the corrected schedule. |
| MidiRenderer.Dispatch | Packages/sfizz-unity/Runtime/SfizzMidiRenderer.cs:192-231 | The message reaches an instrument exactly when the channel's slot exists and its file loads. Only the channel's slot is resolved; every other slot and every other instrument is unchanged. An instrument already in the slot keeps its frame count and gains exactly this event, with its delay. An instrument loaded by this call has received exactly this event, at frame 0. |
| MidiRenderer.Advance | Packages/sfizz-unity/Runtime/SfizzMidiRenderer.cs:162-231 | One event through the loop. A non-channel event or an event before the offset is dropped. Otherwise the blocks before the event are written and the event is dispatched. Trace and offset follow `BlockSchedule.Process`, and every instrument has received exactly the events routed to its slot so far, each at delay `time % B`. |
| MidiRenderer.RenderAll | Packages/sfizz-unity/Runtime/SfizzMidiRenderer.cs:162-232 | After all events, the offset and trace are those of `BlockSchedule.Run`, the clip holds the blocks written, and every instrument has received exactly the events routed to its slot. |
| MidiRenderer.EventStep | Packages/sfizz-unity/Runtime/SfizzMidiRenderer.cs:162-167 | Each dequeued event lies within the clip, and taking it extends the run by one step. |
| MidiRenderer.AllEvents | Packages/sfizz-unity/Runtime/SfizzMidiRenderer.cs:154-238 | After the last event, the offset lies within the clip, and the schedule is the run followed by the tail's blocks. |
| MidiRenderer.TailBlocks | Packages/sfizz-unity/Runtime/SfizzMidiRenderer.cs:234-238 | Full blocks are written while more than a block is left, and the trace stays on the corrected tail. |
| MidiRenderer.Remainder | Packages/sfizz-unity/Runtime/SfizzMidiRenderer.cs:235-238 | The last, partial block is rendered into a buffer of its own size and written at the offset. |
| MidiRenderer.RenderTail | Packages/sfizz-unity/Runtime/SfizzMidiRenderer.cs:234-238 | The tail after the last event is written as `BlockSchedule.Cover`: full blocks and then one non-empty remainder. |
| MidiRenderer.RenderEvents | Packages/sfizz-unity/Runtime/SfizzMidiRenderer.cs:147-241 | A fresh clip as long as the last event's frame, empty for no events. The blocks rendered follow `BlockSchedule.Schedule`, which tiles the clip and routes every channel event in its block. The clip holds the mixes back to back. Each instrument has received, after what it held before, exactly the channel events for its slot, in order, each at delay `time % B`. A slot that any event is for has been tried. |
| MidiRenderer.RenderClip | Packages/sfizz-unity/Runtime/SfizzMidiRenderer.cs:153-240 | For a non-empty event list: a fresh silent clip of the list's length, the events run through, then the tail. The blocks follow `BlockSchedule.Schedule`, and the deliveries are those of the schedule's routed events. |
| MidiRenderer.NewBuffers | Packages/sfizz-unity/Runtime/SfizzMidiRenderer.cs:157-159 | A fresh silent clip of `total` frames, two planar buffers of `MaxBlockSize` frames and an interleaved accumulator of one block, all distinct. |
| MidiRenderer.DispatchDelivered | Packages/sfizz-unity/Runtime/SfizzMidiRenderer.cs:192-231 | One dispatched event extends the deliveries of exactly its channel's slot by that event at delay `time % B`, and no other slot's. |
| MidiRenderer.Render | Packages/sfizz-unity/Runtime/SfizzMidiRenderer.cs:122-145 | A format 0 or 1 file gives one clip of all events; a format 2 file gives one clip per track. Each clip follows the schedule and is as long as its part. Every instrument is released at the end. |
| MidiRenderer.RenderFile | Packages/sfizz-unity/Runtime/SfizzMidiRenderer.cs:27-29 | One instrument serves every channel; the clips are those of `Render`. |
| MidiRenderer.RenderFileByChannel | Packages/sfizz-unity/Runtime/SfizzMidiRenderer.cs:44-46 | One instrument file per channel; the clips are those of `Render`. |
| StreamClock.Ceil | Packages/sfizz-unity/Runtime/SfizzPlayer.cs:101 | `Mathf.CeilToInt`: the least integer not below `x`. |
| StreamClock.Clamp | Packages/sfizz-unity/Runtime/SfizzPlayer.cs:100 | The result lies in `[lo, hi]`, and it is `x` itself when `x` does. |
| StreamClock.StepAsWritten | Packages/sfizz-unity/Runtime/SfizzPlayer.cs:100-102 | The tick as written: the target is the clamped time less the carried error, the frames are `Ceil(sr · target)`, whatever its sign, and the new error is `frames / sr - target`. |
| StreamClock.Step | Packages/sfizz-unity/Runtime/SfizzPlayer.cs:100-105 | The corrected tick: the same target and error, but a frame count that is not positive becomes 0 frames, so the whole target carries over in the error. |
| StreamClock.ErrorInFrames | Packages/sfizz-unity/Runtime/SfizzPlayer.cs:100-102 | Scaled to frames, the new error is the frames rendered less the clamped time's frames, plus the old error's frames. |
| StreamClock.StepBounds | Packages/sfizz-unity/Runtime/SfizzPlayer.cs:100-102 | With a non-negative carried error, a corrected tick renders between 0 and `Ceil(maxDt · sr)` frames and leaves a non-negative error. |
| StreamClock.TickSamplesBound | Packages/sfizz-unity/Runtime/SfizzPlayer.cs:100-101 | The frames of a tick lie in `[0, Ceil(maxDt · r)]`. |
| StreamClock.TickErrorNonNegative | Packages/sfizz-unity/Runtime/SfizzPlayer.cs:101-102 | The error left by a tick is not negative. |
| StreamClock.StepErrorBound | Packages/sfizz-unity/Runtime/SfizzPlayer.cs:100-102 | With the carried error in `[0, 1/sr)`, it stays there after every tick. |
| StreamClock.TickErrorBound | Packages/sfizz-unity/Runtime/SfizzPlayer.cs:100-102 | The same bound for a tick of clamped time `c` at rate `r`. |
| StreamClock.FramesStep | Packages/sfizz-unity/Runtime/SfizzPlayer.cs:100-102 | In frames, the excess of a tick lies in `[0, 1)`. |
| StreamClock.ZeroTickAsWritten | Packages/sfizz-unity/Runtime/SfizzPlayer.cs:100-105 | As written, a tick with no elapsed time computes 0 frames and hands them to `RenderBlock`. |
| StreamClock.NegativeTickAsWritten | Packages/sfizz-unity/Runtime/SfizzPlayer.cs:100-102 | As written, half a frame of error carried from 1 Hz into 4 Hz makes a zero-time tick compute -2 frames. |
| StreamClock.NoDrift | Packages/sfizz-unity/Runtime/SfizzPlayer.cs:75-102 | At a fixed rate, starting from no error, the ticks together render exactly `Ceil(sr · total clamped time)` frames. The error left is less than one frame: rounding does not accumulate. |
| StreamClock.StepIsAsWritten | Packages/sfizz-unity/Runtime/SfizzPlayer.cs:100-102 | With the carried error in `[0, 1/sr)`, the tick as written and the corrected tick give the same frames and error. |
| StreamClock.TicksAreAsWritten | Packages/sfizz-unity/Runtime/SfizzPlayer.cs:75-102 | At a fixed rate, starting from no error, the ticks as written are the corrected ticks. |
| StreamClock.NoDriftAsWritten | Packages/sfizz-unity/Runtime/SfizzPlayer.cs:75-102 | The code as written, at a fixed rate from no error, renders exactly `Ceil(sr · total clamped time)` frames in all, with less than one frame of error left. |
| StreamClock.NoDriftStep | Packages/sfizz-unity/Runtime/SfizzPlayer.cs:100-102 | One more tick keeps the running totals drift-free. |
| StreamClock.DriftAccumulate | Packages/sfizz-unity/Runtime/SfizzPlayer.cs:100-102 | The error bookkeeping of one more tick, at rate `sr`, keeps the totals drift-free. |
| StreamClock.FramesAccumulate | Packages/sfizz-unity/Runtime/SfizzPlayer.cs:100-102 | In frames: the frames rendered so far are the elapsed frames rounded up, and the error is their excess. |
| StreamClock.Latency | Packages/sfizz-unity/Runtime/SfizzPlayer.cs:115-128 | `audioOffset - timeSamples`, replaced by the wrap-around distance `bufferSize - timeSamples + audioOffset` when the difference is negative and its magnitude exceeds that distance. |
| StreamClock.LatencyMeaning | Packages/sfizz-unity/Runtime/SfizzPlayer.cs:115-128 | For cursors inside the loop, the latency is `a - t` or `a - t + b`. It is negative exactly when the play cursor is ahead by at most half the loop; otherwise it is `(a - t) mod b`. |
| StreamClock.Resync | Packages/sfizz-unity/Runtime/SfizzPlayer.cs:130-134 | The resync test: the latency in milliseconds, `1000 · latency / sr`, exceeds the threshold, or the latency is negative. |
| StreamClock.ResyncInFrames | Packages/sfizz-unity/Runtime/SfizzPlayer.cs:130-134 | The cursor is resynchronised exactly when `1000 · latency > threshold · sr` or the latency is negative. |
| StreamingPlayer.AtLeastOne | Packages/sfizz-unity/Runtime/SfizzPlayer.cs:146 | `Mathf.Max(rate, 1)`: at least 1 and at least `rate`, and `rate` itself when that is positive. |
| StreamingPlayer.BufferSizePositive | Packages/sfizz-unity/Runtime/SfizzPlayer.cs:156 | A buffer sized for a positive frame time at a positive rate holds at least one frame. |
| StreamingPlayer.BufferFrames | Packages/sfizz-unity/Runtime/SfizzPlayer.cs:156 | The buffer size is `Ceil(maxDt · rate)` and at least 1. |
| StreamingPlayer.TickFits | Packages/sfizz-unity/Runtime/SfizzPlayer.cs:100-105 | A tick whose cap is at most the frame time the buffer was sized for never renders more frames than the buffer holds, and keeps the error non-negative. |
| StreamingPlayer.GrownMaxDeltaTimeOverruns | Packages/sfizz-unity/Runtime/SfizzPlayer.cs:100-105 | A 1-frame buffer sized at 1 Hz for a 1 s cap: as written, a 2 s tick under a cap grown to 2 s renders 2 frames, more than the buffer holds. |
| StreamingPlayer.SfizzPlayer.constructor | Packages/sfizz-unity/Runtime/SfizzPlayer.cs:17-80 | The defaults: 44100 Hz, a 100 ms threshold, no buffers yet (sized for no frame time), no error, and a fresh instrument. |
| StreamingPlayer.SfizzPlayer.UpdateSampleRate | Packages/sfizz-unity/Runtime/SfizzPlayer.cs:145-180 | The rate is clamped to at least 1. With the rate unchanged nothing else changes. Otherwise the buffers and a silent clip are made for `Ceil(maxDt · rate)` frames, with `maxDt` the current `Time.maximumDeltaTime`, and recorded as sized for it; the instrument is retuned, and the write cursor goes to 0. The error is kept. |
| StreamingPlayer.SfizzPlayer.Reallocate | Packages/sfizz-unity/Runtime/SfizzPlayer.cs:152-179 | Fresh buffers and a silent clip are sized for the new rate, the instrument is retuned, and the write cursor goes to 0. |
| StreamingPlayer.SfizzPlayer.Silent | Packages/sfizz-unity/Runtime/SfizzPlayer.cs:157-161 | A fresh buffer of `n` zero samples. |
| StreamingPlayer.SfizzPlayer.Interleave | Packages/sfizz-unity/Runtime/SfizzPlayer.cs:182-190 | The first `2·samples` outputs become the interleaved frames; the rest of the output is unchanged. |
| StreamingPlayer.SfizzPlayer.UpdateAudioStream | Packages/sfizz-unity/Runtime/SfizzPlayer.cs:94-139 | After the rate update, with the current `Time.maximumDeltaTime` as the cap, the tick's frames are rendered and written interleaved into the clip at the write cursor, wrapping past its end. The error follows the corrected tick. The play cursor comes back at the write cursor exactly when resync holds, and is unchanged otherwise. The write cursor advances by the frames, modulo the buffer size. |
| StreamingPlayer.SfizzPlayer.Stream | Packages/sfizz-unity/Runtime/SfizzPlayer.cs:98-138 | The same, with the buffers already fitting the rate and the cap. The buffers, and what they were sized for, are unchanged. |
| StreamingPlayer.SfizzPlayer.AdvanceClock | Packages/sfizz-unity/Runtime/SfizzPlayer.cs:98-102 | The frames and the new error are those of the corrected tick; the frames fit the buffer. |
| StreamingPlayer.SfizzPlayer.RenderTick | Packages/sfizz-unity/Runtime/SfizzPlayer.cs:104-110 | The instrument advances by `n` frames, and those frames, interleaved, are written into the clip at the write cursor. No render happens when `n` is 0. |
| StreamingPlayer.SfizzPlayer.MoveCursors | Packages/sfizz-unity/Runtime/SfizzPlayer.cs:112-138 | The play cursor comes back at the old write cursor exactly when resync holds. The write cursor becomes `(audioOffset + n) mod bufferSize`. |

The dispatch delay is `time % MaxBlockSize` (SfizzMidiRenderer.cs:198). It
equals the event's distance `time - offset` from its block's start except
when `time == offset + MaxBlockSize`, the guard's edge case under Findings.

The final block (SfizzMidiRenderer.cs:235-237) is rendered even when it has
zero frames. The as-written schedule keeps it; the corrected schedule skips
it.

## Left out

- Unity objects: `AudioClip.Create`, `AudioSource` (its `clip`, `loop` and `Play`), `Destroy(audioClip)`, and the `Awake`/`Update`/`OnDestroy` lifecycle.
  - The clip is an array of interleaved samples.
  - The play cursor `timeSamples` is passed in and handed back.
  - `dt` and `Time.maximumDeltaTime` are parameters.
  - The choice between unscaled and scaled time (`UseUnscaledTime`) is the caller's.
- `AudioClip.SetData`'s wrap past the end of the clip is Unity behaviour not visible in the code. The model assumes it, since the player's looping clip relies on it.
- `AudioSource.Play` restarting the play cursor after a sample-rate change is not modelled; the next `timeSamples` comes from the caller.
- MIDI parsing and tempo conversion (DryWetMidi's `GetTimedEvents`, `GetTempoMap`, `TimeAs<MetricTimeSpan>`, and the float microsecond-to-frame rounding).
  - Event times are given as frames, time-ordered.
  - The clip's length is the last event's frame.
  - Clip names are not modelled.
- Floating point: times and samples are reals. `float` rounding of `dt`, `dtError`, the latency and the sample values is not modelled.
- `Debug.LogWarning` for an unrouted channel and `Debug.Assert` in the wrapper: diagnostics only. The asserts of `RenderBlock` are its precondition.
- The native library: which files load and how each sounds is a `Library` value. Sound is a function of the events received and the frame index.
- `Sfizz.MaxBlockSize` is not defined in the code the model covers. It is the constant 1024 here, and every schedule lemma holds for any positive block size.
- The `Send*` variants are one `Send` with a message datatype. The high-definition variants and the tempo and transport messages are not used by the core.
- Sfizz.cs's other wrappers (string loading, tuning, voices, OSC and the rest) are not part of this model.
- The piano sample controller and the MIDI player sample are not part of this model.
- MidiRenderer.RenderEvents: states the clip as the blocks written back to back, each of its block's size, but not which instrument frames each block holds. That per-block content is stated one block at a time by `RenderBlockToClip` and `RenderBuffer`.
- MidiRenderer.RenderClip: the non-empty branch of `RenderEvents`, proved against the corrected `BlockSchedule.Schedule`, not `BlockSchedule.ScheduleAsWritten`.
- MidiRenderer.RenderEvents: follows the corrected schedule. As written, an event exactly `B` frames past the offset is sent one block early, and the final block can be empty or longer than `B` (Findings).
- MidiRenderer.Render: its clips follow the corrected schedule, not the one as written (Findings).
- MidiRenderer.CatchUp: models the corrected guard. The code's `while (time > offset + B)` (SfizzMidiRenderer.cs:182) writes `(time - offset - 1) / B` blocks when `time > offset`, where the model writes `(time - offset) / B`. The two differ exactly when `time - offset` is a positive multiple of `B`.
- MidiRenderer.Advance: follows `BlockSchedule.Process` with the corrected guard, not the guard as written (SfizzMidiRenderer.cs:182).
- MidiRenderer.RenderAll: its offset and trace are the corrected run, not the run as written.
- MidiRenderer.TailBlocks: writes full blocks while more than a block is left. The code (SfizzMidiRenderer.cs:234-238) writes one final block of `totalDuration - offset` frames, which can exceed `B`.
- MidiRenderer.Remainder: requires `0 < size <= MaxBlockSize`. The code's final block (SfizzMidiRenderer.cs:235-237) can have 0 frames or more than `MaxBlockSize`; those cases are under Findings.
- MidiRenderer.RenderTail: writes `BlockSchedule.Cover`, full blocks and then one non-empty remainder. The code writes one final block of any size, empty included.
- StreamingPlayer.SfizzPlayer.UpdateAudioStream: models the corrected tick, which renders nothing when the rounded frame count is not positive; the code as written is `StreamClock.StepAsWritten`, under Findings.
- StreamingPlayer.SfizzPlayer.UpdateAudioStream: requires, when the rate is unchanged, that the current `Time.maximumDeltaTime` be at most the one the buffers were sized for. The code reads the cap every tick (SfizzPlayer.cs:100) but sizes the buffers only on a rate change (SfizzPlayer.cs:156), so a cap that grows overruns them (`StreamingPlayer.GrownMaxDeltaTimeOverruns`).
- StreamingPlayer.SfizzPlayer.Stream: the corrected tick, with the cap at most the one the buffers were sized for. As written, a tick of 0 or fewer frames reaches `RenderBlock`, and a grown cap overruns the buffers.
- StreamingPlayer.SfizzPlayer.AdvanceClock: the corrected tick `Step`, not `StepAsWritten`. The two agree while the carried error lies in `[0, 1/sr)` (`StreamClock.StepIsAsWritten`), which holds at a fixed rate from no error (`StreamClock.TicksAreAsWritten`) but not after a rate change. The cap must be at most the one the buffers were sized for.
- StreamingPlayer.SfizzPlayer.RenderTick: calls `RenderBlock` only when `n > 0`. SfizzPlayer.cs:104-105 calls it unconditionally, 0 frames included (`StreamClock.ZeroTickAsWritten`).

## Findings

| source | as written | input that shows it | evidently intended | confidence | as-written member | corrected member |
|---|---|---|---|---|---|---|
| Packages/sfizz-unity/Runtime/SfizzMidiRenderer.cs:182 | Full blocks are rendered while `time > offset + B`, then the event is sent at delay `time % B`. | A single channel event at frame `B`. It is sent at delay 0 before block 0 is rendered, so it sounds at frame 0, `B` frames early. | Render while `time >= offset + B`, so every event lands at its own frame. | not executed | BlockSchedule.EarlyDispatchAsWritten | BlockSchedule.ScheduleDispatches |
| Packages/sfizz-unity/Runtime/SfizzMidiRenderer.cs:235-237 | The final block of `totalDuration - offset` frames is always rendered. | A single event at frame 0 asks `RenderBlock` for 0 frames, which violates its `numFrames > 0`. | Skip the final block when it is empty. | not executed | BlockSchedule.EmptyFinalBlockAsWritten | BlockSchedule.ScheduleTiles |
| Packages/sfizz-unity/Runtime/SfizzMidiRenderer.cs:235-237 | One final block covers everything after the last channel event. | A note at frame 0 and a non-channel event at frame `3B` ask for a final block of `3B` frames. That is more than the block size and the `B`-frame buffers. | Render the tail as full blocks and then one non-empty remainder. | not executed | BlockSchedule.OversizedFinalBlockAsWritten | BlockSchedule.ScheduleTiles |
| Packages/sfizz-unity/Runtime/SfizzPlayer.cs:100-105 | `samples = Ceil(SampleRate * (clamped dt - dtError))` is rendered unconditionally, and `dtError` is not reset when the rate changes. | `dt = 0` gives 0 frames. Half a frame of error carried from 1 Hz to 4 Hz gives -2 frames. Both go to `RenderBlock`, which needs a positive count. | Render only when the frame count is positive, and carry the time over in the error. | not executed | StreamClock.NegativeTickAsWritten | StreamClock.StepBounds |
