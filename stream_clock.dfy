/** The streaming player's per-tick arithmetic
    (Packages/sfizz-unity/Runtime/SfizzPlayer.cs, UpdateAudioStream), over
    reals in place of `float`: how many frames a tick renders, the rounding
    error carried into the next tick, the playback latency, and when the play
    cursor is resynchronised. */
module StreamClock {
  import Arith

  /** `Mathf.CeilToInt`: the least integer not below `x`. */
  function Ceil(x: real): (n: int)
    ensures n as real - 1.0 < x <= n as real
  {
    -((-x).Floor)
  }

  lemma CeilUnique(x: real, n: int)
    requires n as real - 1.0 < x <= n as real
    ensures Ceil(x) == n
  {
  }

  lemma CeilMono(x: real, y: real)
    requires x <= y
    ensures Ceil(x) <= Ceil(y)
  {
  }

  /** `Mathf.Clamp`. */
  function Clamp(x: real, lo: real, hi: real): (r: real)
    ensures lo <= hi ==> lo <= r <= hi
    ensures lo <= x <= hi ==> r == x
  {
    if x < lo then lo else if x > hi then hi else x
  }

  /** What one tick renders and the error it carries forward. */
  datatype Tick = Tick(samples: int, dtError: real)

  /** One tick as written: the clamped elapsed time less the carried error,
      rounded up to whole frames at `sr`; the new error is how much longer
      the rendered frames last than that time. */
  function StepAsWritten(dt: real, maxDt: real, dtError: real, sr: int): Tick
    requires sr >= 1
  {
    var target := Clamp(dt, 0.0, maxDt) - dtError;
    var samples := Ceil(sr as real * target);
    Tick(samples, samples as real / sr as real - target)
  }

  /** One tick, corrected: a tick whose rounded frame count is not positive
      renders nothing, and its time carries over whole in the error. */
  function Step(dt: real, maxDt: real, dtError: real, sr: int): Tick
    requires sr >= 1
  {
    var target := Clamp(dt, 0.0, maxDt) - dtError;
    var samples := if Ceil(sr as real * target) > 0 then Ceil(sr as real * target) else 0;
    Tick(samples, samples as real / sr as real - target)
  }

  lemma MulLe(a: real, b: real, c: real)
    requires c >= 0.0 && a <= b
    ensures c * a <= c * b
  {
  }

  lemma MulLt(a: real, b: real, c: real)
    requires c > 0.0 && a < b
    ensures c * a < c * b
  {
  }

  lemma ScaleSign(x: real, r: real)
    requires r > 0.0
    ensures 0.0 <= x <==> 0.0 <= r * x
  {
    var y := r * x;
    if x < 0.0 {
      MulLt(x, 0.0, r);
      assert r * 0.0 == 0.0;
    } else {
      MulLe(0.0, x, r);
      assert r * 0.0 == 0.0;
    }
  }

  lemma DivAbove(x: real, t: real, r: real)
    requires r > 0.0
    ensures x / r > t <==> x > t * r
  {
  }

  /** A time lies in `[0, 1/r)` exactly when it is less than one frame at
      rate `r`. */
  lemma FrameBounds(x: real, r: real)
    requires r > 0.0
    ensures 0.0 <= x <==> 0.0 <= r * x
    ensures x < 1.0 / r <==> r * x < 1.0
  {
    ScaleSign(x, r);
    DivAbove(1.0, x, r);
    assert x * r == r * x;
  }

  /** The carried error in frames: the rendered frames less the frames the
      target time asked for. */
  lemma {:induction false} ErrorInFrames(dt: real, maxDt: real, dtError: real, sr: int)
    requires sr >= 1
    ensures var t := Step(dt, maxDt, dtError, sr);
      sr as real * t.dtError == t.samples as real - sr as real * Clamp(dt, 0.0, maxDt) + sr as real * dtError
  {
    var t := Step(dt, maxDt, dtError, sr);
    var target := Clamp(dt, 0.0, maxDt) - dtError;
    var r := sr as real;
    assert r * (t.samples as real / r) == t.samples as real;
    assert r * (t.samples as real / r - target) == r * (t.samples as real / r) - r * target;
    assert r * target == r * Clamp(dt, 0.0, maxDt) - r * dtError;
  }

  /** A tick never renders a negative number of frames, never more than the
      buffer holds (`Ceil(maxDt * sr)`) while the carried error is not
      negative, and leaves a carried error that is not negative. */
  lemma StepBounds(dt: real, maxDt: real, dtError: real, sr: int)
    requires sr >= 1 && maxDt >= 0.0 && dtError >= 0.0
    ensures var t := Step(dt, maxDt, dtError, sr);
      && 0 <= t.samples <= Ceil(maxDt * sr as real)
      && t.dtError >= 0.0
  {
    var t := Step(dt, maxDt, dtError, sr);
    TickSamplesBound(t.samples, Clamp(dt, 0.0, maxDt), maxDt, dtError, sr as real);
    TickErrorNonNegative(t, Clamp(dt, 0.0, maxDt), dtError, sr as real);
  }

  lemma ScaledBelow(a: real, b: real, r: real)
    requires r > 0.0 && a <= b
    ensures r * a <= b * r
  {
    MulLe(a, b, r);
    assert b * r == r * b;
  }

  /** The frame bound for a tick of clamped time `c` at rate `r`. */
  lemma TickSamplesBound(samples: int, c: real, maxDt: real, dtError: real, r: real)
    requires r > 0.0 && 0.0 <= c <= maxDt && dtError >= 0.0
    requires samples == if Ceil(r * (c - dtError)) > 0 then Ceil(r * (c - dtError)) else 0
    ensures 0 <= samples <= Ceil(maxDt * r)
  {
    WantBelow(c, maxDt, dtError, r);
    SamplesBound(samples, r * (c - dtError), maxDt * r);
  }

  /** The carried error after a tick of clamped time `c` at rate `r` is not
      negative. */
  lemma TickErrorNonNegative(t: Tick, c: real, dtError: real, r: real)
    requires r > 0.0
    requires t.samples == if Ceil(r * (c - dtError)) > 0 then Ceil(r * (c - dtError)) else 0
    requires t.dtError == t.samples as real / r - (c - dtError)
    ensures t.dtError >= 0.0
  {
    ExcessOf(t.samples, t.dtError, c - dtError, r);
    ExcessNonNegative(t.samples, r * (c - dtError), r * t.dtError);
    FrameBounds(t.dtError, r);
  }

  /** The frames asked for in a tick stay within the frames of `maxDt`. */
  lemma WantBelow(c: real, maxDt: real, dtError: real, r: real)
    requires r > 0.0 && 0.0 <= c <= maxDt && dtError >= 0.0
    ensures r * (c - dtError) <= maxDt * r && 0.0 <= maxDt * r
  {
    ScaledBelow(c - dtError, maxDt, r);
    ScaleSign(maxDt, r);
    assert maxDt * r == r * maxDt;
  }

  /** Scaled to frames, the carried error is the rendered frames minus the
      asked ones. */
  lemma ExcessOf(samples: int, e: real, asked: real, r: real)
    requires r > 0.0 && e == samples as real / r - asked
    ensures r * e == samples as real - r * asked
  {
    assert r * (samples as real / r) == samples as real;
    assert r * (samples as real / r + -asked) == r * (samples as real / r) + r * -asked;
  }

  /** Frames asked for `want` rounded up, none when that is not positive,
      stay within `cap` rounded up. */
  lemma SamplesBound(samples: int, want: real, cap: real)
    requires samples == if Ceil(want) > 0 then Ceil(want) else 0
    requires want <= cap && 0.0 <= cap
    ensures 0 <= samples <= Ceil(cap)
  {
    CeilMono(want, cap);
    CeilMono(0.0, cap);
  }

  /** The frames rendered never fall short of the frames asked for. */
  lemma ExcessNonNegative(samples: int, want: real, excess: real)
    requires samples == if Ceil(want) > 0 then Ceil(want) else 0
    requires excess == samples as real - want
    ensures excess >= 0.0
  {
  }

  /** With the carried error in `[0, 1/sr)` on entry, it stays in
      `[0, 1/sr)`: the rendered time exceeds the asked time by less than one
      frame. */
  lemma StepErrorBound(dt: real, maxDt: real, dtError: real, sr: int)
    requires sr >= 1 && maxDt >= 0.0
    requires 0.0 <= dtError < 1.0 / sr as real
    ensures var t := Step(dt, maxDt, dtError, sr);
      0.0 <= t.dtError < 1.0 / sr as real
  {
    var t := Step(dt, maxDt, dtError, sr);
    TickErrorBound(t, Clamp(dt, 0.0, maxDt), dtError, sr as real);
  }

  /** The error bound for a tick of clamped time `c` at rate `r`. */
  lemma TickErrorBound(t: Tick, c: real, dtError: real, r: real)
    requires r > 0.0 && c >= 0.0 && 0.0 <= dtError < 1.0 / r
    requires t.samples == if Ceil(r * (c - dtError)) > 0 then Ceil(r * (c - dtError)) else 0
    requires t.dtError == t.samples as real / r - (c - dtError)
    ensures 0.0 <= t.dtError < 1.0 / r
  {
    var asked, carried, want, excess := r * c, r * dtError, r * (c - dtError), r * t.dtError;
    assert excess == t.samples as real - want by {
      assert r * (t.samples as real / r) == t.samples as real;
      assert r * (t.samples as real / r + -(c - dtError)) == r * (t.samples as real / r) + r * -(c - dtError);
    }
    assert want == asked - carried by {
      assert r * (c + -dtError) == r * c + r * -dtError;
    }
    assert 0.0 <= carried < 1.0 by {
      FrameBounds(dtError, r);
    }
    assert asked >= 0.0 by {
      ScaleSign(c, r);
    }
    FramesStep(asked, carried, want, t.samples, excess);
    FrameBounds(t.dtError, r);
  }

  /** The error bound in frames: a tick asks for the clamped time's frames
      less the carried frames, renders that rounded up (or nothing), and
      carries the excess. */
  lemma FramesStep(asked: real, carried: real, want: real, samples: int, excess: real)
    requires asked >= 0.0 && 0.0 <= carried < 1.0 && want == asked - carried
    requires samples == if Ceil(want) > 0 then Ceil(want) else 0
    requires excess == samples as real - asked + carried
    ensures 0.0 <= excess < 1.0
  {
  }

  /** As written, a tick with no elapsed time renders 0 frames, below the
      engine's positive frame count. */
  lemma ZeroTickAsWritten(maxDt: real, dtError: real, sr: int)
    requires sr >= 1 && maxDt >= 0.0
    requires 0.0 <= dtError < 1.0 / sr as real
    ensures StepAsWritten(0.0, maxDt, dtError, sr).samples == 0
  {
    var r := sr as real;
    FrameBounds(dtError, r);
    assert r * (0.0 - dtError) == -(r * dtError);
    CeilUnique(r * (0.0 - dtError), 0);
  }

  /** As written, the error is not reset when the sample rate changes: an
      error of half a frame at 1 Hz is two frames at 4 Hz, and a tick with no
      elapsed time then renders -2 frames. */
  lemma NegativeTickAsWritten(maxDt: real)
    requires maxDt >= 0.0
    ensures 0.0 <= 0.5 < 1.0 / 1 as real
    ensures StepAsWritten(0.0, maxDt, 0.5, 4).samples == -2
  {
    CeilUnique(4.0 * (0.0 - 0.5), -2);
  }

  /** While the carried error is below one frame, the tick as written and
      the corrected tick agree: the asked frames then exceed -1, so they
      never round to a negative count. */
  lemma StepIsAsWritten(dt: real, maxDt: real, dtError: real, sr: int)
    requires sr >= 1 && maxDt >= 0.0
    requires 0.0 <= dtError < 1.0 / sr as real
    ensures Step(dt, maxDt, dtError, sr) == StepAsWritten(dt, maxDt, dtError, sr)
  {
    var r, c := sr as real, Clamp(dt, 0.0, maxDt);
    FrameBounds(dtError, r);
    ScaleSign(c, r);
    assert r * (c - dtError) == r * c - r * dtError;
  }

  /** Ticks at a fixed rate, first to last: the total frames rendered and the
      error left over. */
  function Ticks(dts: seq<real>, maxDt: real, dtError: real, sr: int): Tick
    requires sr >= 1
  {
    if dts == [] then Tick(0, dtError)
    else
      var before := Ticks(dts[..|dts| - 1], maxDt, dtError, sr);
      var t := Step(dts[|dts| - 1], maxDt, before.dtError, sr);
      Tick(before.samples + t.samples, t.dtError)
  }

  /** The clamped elapsed time of all ticks. */
  function Elapsed(dts: seq<real>, maxDt: real): real
  {
    if dts == [] then 0.0 else Elapsed(dts[..|dts| - 1], maxDt) + Clamp(dts[|dts| - 1], 0.0, maxDt)
  }

  /** Distributivity over reals, as a lemma of its own: calling it keeps the
      nonlinear step out of the drift proof's context, where the solver
      cannot afford it. */
  lemma MulAddReal(r: real, a: real, b: real)
    ensures r * (a + b) == r * a + r * b
  {
  }

  /** Ticks of total clamped time `elapsed` at rate `sr` left `t`: exactly
      the frames that time rounds up to, and a carried error, less than one
      frame, of what those frames last beyond it. */
  ghost predicate DriftFree(t: Tick, elapsed: real, sr: int)
    requires sr >= 1
  {
    && t.samples == Ceil(sr as real * elapsed)
    && sr as real * t.dtError == t.samples as real - sr as real * elapsed
    && 0.0 <= t.dtError < 1.0 / sr as real
  }

  /** The rounding error does not accumulate: at a fixed rate, starting from
      no error, the ticks together render exactly the frames their total
      clamped time rounds up to. */
  lemma {:induction false} NoDrift(dts: seq<real>, maxDt: real, sr: int)
    requires sr >= 1 && maxDt >= 0.0
    ensures DriftFree(Ticks(dts, maxDt, 0.0, sr), Elapsed(dts, maxDt), sr)
    decreases |dts|
  {
    var r := sr as real;
    if dts == [] {
      CeilUnique(r * 0.0, 0);
      FrameBounds(0.0, r);
    } else {
      var pre := dts[..|dts| - 1];
      var dt := dts[|dts| - 1];
      NoDrift(pre, maxDt, sr);
      var before := Ticks(pre, maxDt, 0.0, sr);
      var t := Step(dt, maxDt, before.dtError, sr);
      assert Ticks(dts, maxDt, 0.0, sr) == Tick(before.samples + t.samples, t.dtError);
      assert Elapsed(dts, maxDt) == Elapsed(pre, maxDt) + Clamp(dt, 0.0, maxDt);
      NoDriftStep(before, Elapsed(pre, maxDt), dt, maxDt, sr);
    }
  }

  /** One more tick keeps the bookkeeping drift-free. */
  lemma NoDriftStep(before: Tick, elapsed: real, dt: real, maxDt: real, sr: int)
    requires sr >= 1 && maxDt >= 0.0
    requires DriftFree(before, elapsed, sr)
    ensures var t := Step(dt, maxDt, before.dtError, sr);
      DriftFree(Tick(before.samples + t.samples, t.dtError), elapsed + Clamp(dt, 0.0, maxDt), sr)
  {
    var t := Step(dt, maxDt, before.dtError, sr);
    StepErrorBound(dt, maxDt, before.dtError, sr);
    ErrorInFrames(dt, maxDt, before.dtError, sr);
    DriftAccumulate(before, t, elapsed, Clamp(dt, 0.0, maxDt), sr);
  }

  /** A tick asked `c` more time and carries its excess in frames: the total
      stays drift-free. */
  lemma DriftAccumulate(before: Tick, t: Tick, elapsed: real, c: real, sr: int)
    requires sr >= 1
    requires DriftFree(before, elapsed, sr)
    requires sr as real * t.dtError == t.samples as real - sr as real * c + sr as real * before.dtError
    requires 0.0 <= t.dtError < 1.0 / sr as real
    ensures DriftFree(Tick(before.samples + t.samples, t.dtError), elapsed + c, sr)
  {
    var r := sr as real;
    MulAddReal(r, elapsed, c);
    FrameBounds(t.dtError, r);
    FramesAccumulate(r * elapsed, r * c, r * (elapsed + c), r * before.dtError, r * t.dtError,
                     before.samples, t.samples);
  }

  /** The error bookkeeping of consecutive ticks, in frames. */
  lemma FramesAccumulate(elapsedBefore: real, asked: real, elapsed: real, carried: real, excess: real,
                         renderedBefore: int, rendered: int)
    requires elapsed == elapsedBefore + asked
    requires carried == renderedBefore as real - elapsedBefore
    requires excess == rendered as real - asked + carried
    requires 0.0 <= excess < 1.0
    ensures excess == (renderedBefore + rendered) as real - elapsed
    ensures Ceil(elapsed) == renderedBefore + rendered
  {
    CeilUnique(elapsed, renderedBefore + rendered);
  }

  /** The ticks of `Ticks` taken as written. */
  function TicksAsWritten(dts: seq<real>, maxDt: real, dtError: real, sr: int): Tick
    requires sr >= 1
  {
    if dts == [] then Tick(0, dtError)
    else
      var before := TicksAsWritten(dts[..|dts| - 1], maxDt, dtError, sr);
      var t := StepAsWritten(dts[|dts| - 1], maxDt, before.dtError, sr);
      Tick(before.samples + t.samples, t.dtError)
  }

  /** At a fixed rate and starting from no error, the ticks as written are
      the corrected ticks: the error never leaves `[0, 1/sr)`. */
  lemma {:induction false} TicksAreAsWritten(dts: seq<real>, maxDt: real, sr: int)
    requires sr >= 1 && maxDt >= 0.0
    ensures TicksAsWritten(dts, maxDt, 0.0, sr) == Ticks(dts, maxDt, 0.0, sr)
    decreases |dts|
  {
    if dts != [] {
      var pre := dts[..|dts| - 1];
      TicksAreAsWritten(pre, maxDt, sr);
      NoDrift(pre, maxDt, sr);
      StepIsAsWritten(dts[|dts| - 1], maxDt, Ticks(pre, maxDt, 0.0, sr).dtError, sr);
    }
  }

  /** The code as written does not drift either at a fixed rate. */
  lemma NoDriftAsWritten(dts: seq<real>, maxDt: real, sr: int)
    requires sr >= 1 && maxDt >= 0.0
    ensures DriftFree(TicksAsWritten(dts, maxDt, 0.0, sr), Elapsed(dts, maxDt), sr)
  {
    TicksAreAsWritten(dts, maxDt, sr);
    NoDrift(dts, maxDt, sr);
  }

  /** The latency between the write cursor `audioOffset` and the play cursor
      `timeSamples` on a looping buffer of `bufferSize` frames: their
      difference, or, when the play cursor is ahead, the distance around the
      end of the loop if that is shorter. */
  function Latency(audioOffset: int, timeSamples: int, bufferSize: int): int
  {
    var latency := audioOffset - timeSamples;
    var wrapAround := bufferSize - timeSamples + audioOffset;
    if latency < 0 && -latency > wrapAround then wrapAround else latency
  }

  /** For cursors inside the buffer, the latency is the write cursor's
      distance from the play cursor, counted forward around the loop, except
      that a play cursor ahead by at most half the loop reads as a negative
      latency. */
  lemma LatencyMeaning(a: int, t: int, b: int)
    requires 0 <= a < b && 0 <= t < b
    ensures var l := Latency(a, t, b);
      && -b < l < b
      && (l == a - t || l == a - t + b)
      && (l < 0 <==> t > a && 2 * (t - a) <= b)
      && (l >= 0 ==> l == (a - t) % b)
  {
    var l := Latency(a, t, b);
    if l >= 0 {
      if a >= t {
        Arith.DivModUnique(a - t, 0, a - t, b);
      } else {
        Arith.DivModUnique(a - t, -1, a - t + b, b);
      }
    }
  }

  /** The play cursor is moved to the write cursor when the latency, in
      milliseconds, exceeds the threshold, or is negative. */
  predicate Resync(latency: int, sr: int, threshold: int)
    requires sr >= 1
  {
    1000.0 * latency as real / sr as real > threshold as real || latency < 0
  }

  /** The same condition in whole frames. */
  lemma ResyncInFrames(latency: int, sr: int, threshold: int)
    requires sr >= 1
    ensures Resync(latency, sr, threshold) <==> 1000 * latency > threshold * sr || latency < 0
  {
    DivAbove(1000.0 * latency as real, threshold as real, sr as real);
    assert (threshold * sr) as real == threshold as real * sr as real;
    assert (1000 * latency) as real == 1000 as real * latency as real;
  }
}
