/** The streaming player (Packages/sfizz-unity/Runtime/SfizzPlayer.cs): every
    frame it renders just enough audio to last until the next frame into a
    looping clip, `bufferSize` frames long, and pulls the clip's play cursor
    back to the write cursor when it drifts too far. The Unity audio source is
    seen only through its play cursor, passed in and handed back. */
module StreamingPlayer {
  import opened SfizzEngine
  import opened Mixer
  import opened ClipData
  import opened StreamClock

  /** `Mathf.Max(rate, 1)`. */
  function AtLeastOne(rate: int): (r: int)
    ensures r >= 1 && r >= rate
    ensures rate >= 1 ==> r == rate
  {
    if rate < 1 then 1 else rate
  }

  /** A buffer of `Ceil(maxDt * rate)` frames holds at least one frame. */
  lemma BufferSizePositive(maxDt: real, rate: int)
    requires maxDt > 0.0 && rate >= 1
    ensures Ceil(maxDt * rate as real) >= 1
  {
    MulLt(0.0, maxDt, rate as real);
    assert maxDt * rate as real == rate as real * maxDt;
  }

  /** The frames a buffer needs to last `maxDt` seconds at `rate`. */
  function BufferFrames(maxDt: real, rate: int): (size: int)
    requires maxDt > 0.0 && rate >= 1
    ensures size >= 1 && SizedFor(size, maxDt, rate)
  {
    BufferSizePositive(maxDt, rate);
    Ceil(maxDt * rate as real)
  }

  /** `size` frames last the longest frame time `maxDt` at `rate`, rounded
      up to whole frames. */
  predicate SizedFor(size: int, maxDt: real, rate: int)
  {
    size == Ceil(maxDt * rate as real)
  }

  /** A tick whose frame time is capped at `maxDt` renders no more frames
      than a buffer sized for a cap `sized` at least as long holds, and keeps
      the carried error non-negative. */
  lemma TickFits(dt: real, maxDt: real, dtError: real, rate: int, size: int, sized: real)
    requires rate >= 1 && 0.0 <= maxDt <= sized && dtError >= 0.0 && SizedFor(size, sized, rate)
    ensures var tick := Step(dt, maxDt, dtError, rate);
      0 <= tick.samples <= size && tick.dtError >= 0.0
  {
    StepBounds(dt, maxDt, dtError, rate);
    MulLe(maxDt, sized, rate as real);
    assert maxDt * rate as real <= sized * rate as real;
    CeilMono(maxDt * rate as real, sized * rate as real);
  }

  /** The buffers are sized only when the sample rate changes, so a longest
      frame time that grows afterwards overruns them: sized for 1 s at 1 Hz
      the buffer holds 1 frame, and a 2 s frame under a 2 s cap renders 2. */
  lemma GrownMaxDeltaTimeOverruns()
    ensures SizedFor(1, 1.0, 1)
    ensures StepAsWritten(2.0, 2.0, 0.0, 1).samples == 2
  {
    CeilUnique(1.0 * 1 as real, 1);
    CeilUnique(1 as real * (Clamp(2.0, 0.0, 2.0) - 0.0), 2);
  }

  class SfizzPlayer {
    /** The requested sample rate, settable at any time. */
    var sampleRate: int
    /** The largest latency, in milliseconds, before the play cursor is moved. */
    var latencyThreshold: int
    /** The longest frame time (Unity's `Time.maximumDeltaTime`) the buffers
        were last sized for. */
    ghost var sizedMaxDt: real
    const sfizz: Sfizz
    var bufferSize: int
    /** The planar render buffer, one array per channel. */
    var left: array<real>
    var right: array<real>
    /** The looping clip's interleaved samples. */
    var clip: array<real>
    var lastSampleRate: int
    /** The write cursor: the clip frame the next render starts at. */
    var audioOffset: int
    /** How much longer, in seconds, the audio rendered so far lasts than the
        time that has elapsed. */
    var dtError: real

    /** The buffers match the sample rate they were made for, and the write
        cursor is inside the clip. */
    ghost predicate Configured()
      reads this, sfizz
    {
      && lastSampleRate >= 1
      && sizedMaxDt > 0.0
      && SizedFor(bufferSize, sizedMaxDt, lastSampleRate) && bufferSize >= 1
      && left.Length == bufferSize && right.Length == bufferSize
      && clip.Length == Channels * bufferSize
      && sfizz.samplesPerBlock == bufferSize && sfizz.sampleRate == lastSampleRate
      && 0 <= audioOffset < bufferSize
    }

    ghost predicate Valid()
      reads this, sfizz
    {
      && sfizz.initialized
      && dtError >= 0.0
      && left != right && clip != left && clip != right
      && lastSampleRate >= 0
      && (lastSampleRate != 0 ==> Configured())
    }

    /** A player with the default settings; no buffers are made until the
        first update. */
    constructor ()
      ensures Valid() && fresh(sfizz)
      ensures sampleRate == 44100 && latencyThreshold == 100
      ensures lastSampleRate == 0 && audioOffset == 0 && dtError == 0.0
      ensures sfizz.voice == Silence && sfizz.received == [] && sfizz.rendered == 0
    {
      sizedMaxDt := 0.0;
      sampleRate := 44100;
      latencyThreshold := 100;
      sfizz := new Sfizz();
      bufferSize := 0;
      left := new real[0];
      right := new real[0];
      clip := new real[0];
      lastSampleRate := 0;
      audioOffset := 0;
      dtError := 0.0;
    }

    /** Clamps the sample rate to at least 1. When it differs from the rate
        the buffers were made for, makes new buffers and a new silent clip of
        `Ceil(maxDt * rate)` frames, where `maxDt` is the current longest frame
        time, retunes the synthesizer, and moves the write cursor to the start;
        otherwise changes nothing. The carried error is kept either way. */
    method UpdateSampleRate(maxDt: real)
      requires Valid() && maxDt > 0.0
      modifies this, sfizz
      ensures Valid() && Configured()
      ensures sampleRate == AtLeastOne(old(sampleRate)) && lastSampleRate == sampleRate
      ensures latencyThreshold == old(latencyThreshold) && dtError == old(dtError)
      ensures sfizz.voice == old(sfizz.voice) && sfizz.received == old(sfizz.received)
      ensures sfizz.rendered == old(sfizz.rendered)
      ensures sampleRate == old(lastSampleRate) ==>
        && bufferSize == old(bufferSize) && audioOffset == old(audioOffset)
        && left == old(left) && right == old(right) && clip == old(clip)
        && sizedMaxDt == old(sizedMaxDt)
      ensures sampleRate != old(lastSampleRate) ==>
        && sizedMaxDt == maxDt && fresh(left) && fresh(right) && fresh(clip)
        && clip[..] == Zeros(clip.Length) && audioOffset == 0
    {
      sampleRate := AtLeastOne(sampleRate);
      if sampleRate != lastSampleRate {
        Reallocate(maxDt);
      }
    }

    /** The buffers, clip and synthesizer settings for a new sample rate. */
    method Reallocate(maxDt: real)
      requires Valid() && sampleRate >= 1 && sampleRate != lastSampleRate && maxDt > 0.0
      modifies this, sfizz
      ensures Valid() && Configured() && lastSampleRate == sampleRate && sizedMaxDt == maxDt
      ensures sampleRate == old(sampleRate) && latencyThreshold == old(latencyThreshold) && dtError == old(dtError)
      ensures sfizz.voice == old(sfizz.voice) && sfizz.received == old(sfizz.received)
      ensures sfizz.rendered == old(sfizz.rendered)
      ensures fresh(left) && fresh(right) && fresh(clip)
      ensures clip[..] == Zeros(clip.Length) && audioOffset == 0
    {
      var size := BufferFrames(maxDt, sampleRate);
      var l := Silent(size);
      var r := Silent(size);
      var c := Silent(Channels * size);
      sfizz.SetSamplesPerBlock(size);
      sfizz.SetSampleRate(sampleRate);
      lastSampleRate, bufferSize, audioOffset, sizedMaxDt := sampleRate, size, 0, maxDt;
      left, right, clip := l, r, c;
    }

    /** A new buffer of `n` silent samples. */
    static method Silent(n: nat) returns (a: array<real>)
      ensures fresh(a) && a.Length == n && a[..] == Zeros(n)
    {
      a := new real[n](_ => 0.0);
      assert a[..] == Zeros(n);
    }

    /** Copies the first `samples` frames of the planar buffers into `output`,
        interleaved; the rest of `output` is unchanged. */
    method Interleave(left: array<real>, right: array<real>, output: array<real>, samples: int)
      requires output != left && output != right
      requires 0 <= samples <= left.Length && samples <= right.Length
      requires Channels * samples <= output.Length
      modifies output
      ensures output[..Channels * samples] == Interleaved(left[..samples], right[..samples])
      ensures output[Channels * samples..] == old(output[Channels * samples..])
    {
      var k := 0;
      for i := 0 to samples
        invariant k == Channels * i
        invariant forall f :: 0 <= f < i ==> output[2 * f] == left[f] && output[2 * f + 1] == right[f]
        invariant forall m :: k <= m < output.Length ==> output[m] == old(output[m])
      {
        for j := 0 to Channels
          invariant k == Channels * i + j
          invariant forall f :: 0 <= f < i ==> output[2 * f] == left[f] && output[2 * f + 1] == right[f]
          invariant j >= 1 ==> output[2 * i] == left[i]
          invariant j >= 2 ==> output[2 * i + 1] == right[i]
          invariant forall m :: k <= m < output.Length ==> output[m] == old(output[m])
        {
          output[k] := if j == 0 then left[i] else right[i];
          k := k + 1;
        }
      }
      FramesInterleaved(output[..Channels * samples], left[..samples], right[..samples]);
    }

    /** One frame of streaming, `dt` seconds after the last, with the longest
        frame time at `maxDt` and the clip's play cursor at `timeSamples`. After bringing the buffers up to the
        sample rate, renders the tick's frames (none when the tick rounds to
        no frames), writes them interleaved into the clip at the write cursor,
        wrapping past its end, and advances the write cursor around the loop.
        The play cursor comes back moved to where this tick's audio starts when
        the latency between the two cursors exceeds the threshold or is
        negative, and unchanged otherwise. The longest frame time may not have
        grown since the buffers were last sized, unless the sample rate is
        about to change and they are sized anew. */
    method UpdateAudioStream(dt: real, maxDt: real, timeSamples: int) returns (newTimeSamples: int, ghost samples: int)
      requires Valid() && maxDt > 0.0
      requires AtLeastOne(sampleRate) == lastSampleRate ==> maxDt <= sizedMaxDt
      modifies this, sfizz, left, right, clip
      ensures Valid() && Configured()
      ensures sampleRate == AtLeastOne(old(sampleRate)) && lastSampleRate == sampleRate
      ensures latencyThreshold == old(latencyThreshold)
      ensures sampleRate == old(lastSampleRate) ==>
        && bufferSize == old(bufferSize) && sizedMaxDt == old(sizedMaxDt)
        && clip == old(clip) && left == old(left) && right == old(right)
      ensures sampleRate != old(lastSampleRate) ==> sizedMaxDt == maxDt
      ensures var tick := Step(dt, maxDt, old(dtError), sampleRate);
        samples == tick.samples && dtError == tick.dtError
      ensures 0 <= samples <= bufferSize
      ensures sfizz.voice == old(sfizz.voice) && sfizz.received == old(sfizz.received)
      ensures sfizz.rendered == old(sfizz.rendered) + samples
      ensures var offset := if sampleRate == old(lastSampleRate) then old(audioOffset) else 0;
        var before := if sampleRate == old(lastSampleRate) then old(clip[..]) else Zeros(clip.Length);
        clip[..] == RingWrite(before, Interleaved(sfizz.Output(0, old(sfizz.rendered), samples),
                                                  sfizz.Output(1, old(sfizz.rendered), samples)),
                              Channels * offset)
      ensures var offset := if sampleRate == old(lastSampleRate) then old(audioOffset) else 0;
        newTimeSamples == (if Resync(Latency(offset, timeSamples, bufferSize), sampleRate, latencyThreshold)
                           then offset else timeSamples)
      ensures var offset := if sampleRate == old(lastSampleRate) then old(audioOffset) else 0;
        audioOffset == (offset + samples) % bufferSize
    {
      UpdateSampleRate(maxDt);
      newTimeSamples, samples := Stream(dt, maxDt, timeSamples);
    }

    /** One frame of streaming once the buffers fit the sample rate: the
        tick's frames rendered into the clip at the write cursor, then both
        cursors moved. */
    method Stream(dt: real, maxDt: real, timeSamples: int) returns (newTimeSamples: int, ghost samples: int)
      requires Valid() && Configured() && sampleRate == lastSampleRate && 0.0 <= maxDt <= sizedMaxDt
      modifies this, sfizz, left, right, clip
      ensures Valid() && Configured()
      ensures sampleRate == old(sampleRate) && lastSampleRate == old(lastSampleRate)
      ensures latencyThreshold == old(latencyThreshold) && bufferSize == old(bufferSize)
      ensures sizedMaxDt == old(sizedMaxDt)
      ensures left == old(left) && right == old(right) && clip == old(clip)
      ensures var tick := Step(dt, maxDt, old(dtError), sampleRate);
        samples == tick.samples && dtError == tick.dtError
      ensures 0 <= samples <= bufferSize
      ensures sfizz.voice == old(sfizz.voice) && sfizz.received == old(sfizz.received)
      ensures sfizz.rendered == old(sfizz.rendered) + samples
      ensures clip[..] == RingWrite(old(clip[..]), Interleaved(sfizz.Output(0, old(sfizz.rendered), samples),
                                                               sfizz.Output(1, old(sfizz.rendered), samples)),
                                    Channels * old(audioOffset))
      ensures newTimeSamples == (if Resync(Latency(old(audioOffset), timeSamples, bufferSize), sampleRate, latencyThreshold)
                                 then old(audioOffset) else timeSamples)
      ensures audioOffset == (old(audioOffset) + samples) % bufferSize
    {
      var n := AdvanceClock(dt, maxDt);
      samples := n;
      RenderTick(n);
      newTimeSamples := MoveCursors(n, timeSamples);
    }

    /** The play cursor comes back at the write cursor when they are too far
        apart or the play cursor is ahead; the write cursor moves on by `n`
        frames around the loop. */
    method MoveCursors(n: int, timeSamples: int) returns (newTimeSamples: int)
      requires Valid() && Configured() && sampleRate == lastSampleRate && 0 <= n
      modifies this
      ensures Valid() && Configured()
      ensures sampleRate == old(sampleRate) && lastSampleRate == old(lastSampleRate)
      ensures newTimeSamples == (if Resync(Latency(old(audioOffset), timeSamples, bufferSize), sampleRate, latencyThreshold)
                                 then old(audioOffset) else timeSamples)
      ensures audioOffset == (old(audioOffset) + n) % bufferSize
      ensures latencyThreshold == old(latencyThreshold) && bufferSize == old(bufferSize) && dtError == old(dtError)
      ensures sizedMaxDt == old(sizedMaxDt)
      ensures left == old(left) && right == old(right) && clip == old(clip)
    {
      var latency := Latency(audioOffset, timeSamples, bufferSize);
      if Resync(latency, sampleRate, latencyThreshold) {
        newTimeSamples := audioOffset;
      } else {
        newTimeSamples := timeSamples;
      }
      audioOffset := (audioOffset + n) % bufferSize;
    }

    /** How many frames this tick renders; the carried error moves on. */
    method AdvanceClock(dt: real, maxDt: real) returns (n: int)
      requires Valid() && Configured() && sampleRate == lastSampleRate && 0.0 <= maxDt <= sizedMaxDt
      modifies this
      ensures Valid() && Configured()
      ensures sampleRate == old(sampleRate) && latencyThreshold == old(latencyThreshold)
      ensures var tick := Step(dt, maxDt, old(dtError), sampleRate);
        n == tick.samples && dtError == tick.dtError
      ensures 0 <= n <= bufferSize
      ensures bufferSize == old(bufferSize) && lastSampleRate == old(lastSampleRate) && sizedMaxDt == old(sizedMaxDt)
      ensures left == old(left) && right == old(right) && clip == old(clip)
      ensures audioOffset == old(audioOffset)
    {
      var tick := Step(dt, maxDt, dtError, sampleRate);
      TickFits(dt, maxDt, dtError, sampleRate, bufferSize, sizedMaxDt);
      n := tick.samples;
      dtError := tick.dtError;
    }

    /** Renders `n` frames, none when `n` is 0, and writes them interleaved
        into the clip at the write cursor. */
    method RenderTick(n: int)
      requires Valid() && Configured() && 0 <= n <= bufferSize
      modifies sfizz, left, right, clip
      ensures Valid() && Configured()
      ensures sfizz.voice == old(sfizz.voice) && sfizz.received == old(sfizz.received)
      ensures sfizz.rendered == old(sfizz.rendered) + n
      ensures clip[..] == RingWrite(old(clip[..]), Interleaved(sfizz.Output(0, old(sfizz.rendered), n),
                                                               sfizz.Output(1, old(sfizz.rendered), n)),
                                    Channels * audioOffset)
    {
      ghost var from := sfizz.rendered;
      if n > 0 {
        sfizz.RenderBlock(left, right, n);
        var data := new real[Channels * n];
        Interleave(left, right, data, n);
        assert data[..] == Interleaved(sfizz.Output(0, from, n), sfizz.Output(1, from, n)) by {
          assert data[..] == data[..Channels * n];
        }
        SetData(clip, data, audioOffset);
      } else {
        RingWriteNothing(clip[..], Channels * audioOffset);
      }
    }
  }
}
