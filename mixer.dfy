/** Stereo interleaving and the accumulating mix of the offline renderer
    (Packages/sfizz-unity/Runtime/SfizzMidiRenderer.cs, InterleaveAdd, and the
    interleaved copy of Packages/sfizz-unity/Runtime/SfizzPlayer.cs,
    Interleave). An interleaved buffer holds frame `i` of the left channel at
    `2 i` and of the right channel at `2 i + 1`. */
module Mixer {

  /** Two planar channels of equal length as one interleaved buffer. */
  function Interleaved(l: seq<real>, r: seq<real>): (s: seq<real>)
    requires |l| == |r|
    ensures |s| == 2 * |l|
    ensures forall i :: 0 <= i < |l| ==> s[2 * i] == l[i] && s[2 * i + 1] == r[i]
  {
    if l == [] then []
    else Interleaved(l[..|l| - 1], r[..|r| - 1]) + [l[|l| - 1], r[|r| - 1]]
  }

  /** The left channel of an interleaved buffer. */
  function Evens(s: seq<real>): (l: seq<real>)
    ensures |l| == |s| / 2
    ensures forall i :: 0 <= i < |l| ==> l[i] == s[2 * i]
  {
    seq(|s| / 2, i requires 0 <= i < |s| / 2 => s[2 * i])
  }

  /** The right channel of an interleaved buffer. */
  function Odds(s: seq<real>): (r: seq<real>)
    ensures |r| == |s| / 2
    ensures forall i :: 0 <= i < |r| ==> r[i] == s[2 * i + 1]
  {
    seq(|s| / 2, i requires 0 <= i < |s| / 2 => s[2 * i + 1])
  }

  /** Splitting an interleaved buffer gives back both channels. */
  lemma SplitInterleaved(l: seq<real>, r: seq<real>)
    requires |l| == |r|
    ensures Evens(Interleaved(l, r)) == l && Odds(Interleaved(l, r)) == r
  {
  }

  /** Every buffer of even length is the interleaving of its two channels. */
  lemma InterleaveSplit(s: seq<real>)
    requires |s| % 2 == 0
    ensures Interleaved(Evens(s), Odds(s)) == s
  {
    var t := Interleaved(Evens(s), Odds(s));
    forall k | 0 <= k < |s|
      ensures t[k] == s[k]
    {
      var i := k / 2;
      assert i < |Evens(s)|;
      if k % 2 == 0 {
        assert k == 2 * i;
        assert t[2 * i] == Evens(s)[i];
      } else {
        assert k == 2 * i + 1;
        assert t[2 * i + 1] == Odds(s)[i];
      }
    }
  }

  /** A buffer holding the frames of `l` and `r` at the interleaved
      positions is their interleaving. */
  lemma FramesInterleaved(s: seq<real>, l: seq<real>, r: seq<real>)
    requires |l| == |r| && |s| == 2 * |l|
    requires forall i :: 0 <= i < |l| ==> s[2 * i] == l[i] && s[2 * i + 1] == r[i]
    ensures s == Interleaved(l, r)
  {
    assert Evens(s) == l;
    assert Odds(s) == r;
    InterleaveSplit(s);
  }

  /** `block` added sample by sample onto the front of `base`. */
  function AddInto(base: seq<real>, block: seq<real>): (s: seq<real>)
    requires |block| <= |base|
    ensures |s| == |base|
  {
    seq(|base|, k requires 0 <= k < |base| => if k < |block| then base[k] + block[k] else base[k])
  }

  /** A buffer holding `base` plus the frames of `l` and `r` at the
      interleaved positions, and `base` past them, is their interleaving added
      onto `base`. */
  lemma AddedFrames(s: seq<real>, base: seq<real>, l: seq<real>, r: seq<real>)
    requires |l| == |r| && |s| == |base| && 2 * |l| <= |s|
    requires forall i :: 0 <= i < |l| ==>
      s[2 * i] == base[2 * i] + l[i] && s[2 * i + 1] == base[2 * i + 1] + r[i]
    requires forall k :: 2 * |l| <= k < |s| ==> s[k] == base[k]
    ensures s == AddInto(base, Interleaved(l, r))
  {
    var block := Interleaved(l, r);
    forall k | 0 <= k < |s|
      ensures s[k] == AddInto(base, block)[k]
    {
      if k < 2 * |l| {
        AddedSample(s, base, l, r, k);
      }
    }
  }

  /** The sample at position `k` of the interleaved frames, left for an even
      `k` and right for an odd one. */
  lemma AddedSample(s: seq<real>, base: seq<real>, l: seq<real>, r: seq<real>, k: int)
    requires |l| == |r| && |s| == |base| && 0 <= k < 2 * |l| <= |s|
    requires forall i :: 0 <= i < |l| ==>
      s[2 * i] == base[2 * i] + l[i] && s[2 * i + 1] == base[2 * i + 1] + r[i]
    ensures s[k] == base[k] + Interleaved(l, r)[k]
  {
    var i := k / 2;
    assert 0 <= i < |l|;
    if k % 2 == 0 {
      assert k == 2 * i;
    } else {
      assert k == 2 * i + 1;
    }
  }

  /** `n` silent samples. */
  function Zeros(n: nat): (s: seq<real>)
    ensures |s| == n
    ensures forall k :: 0 <= k < n ==> s[k] == 0.0
  {
    seq(n, k => 0.0)
  }

  predicate FitIn(outs: seq<seq<real>>, n: nat)
  {
    forall i :: 0 <= i < |outs| ==> |outs[i]| <= n
  }

  /** Every block of `outs` added onto `base`, first to last. */
  function Mix(base: seq<real>, outs: seq<seq<real>>): (s: seq<real>)
    requires FitIn(outs, |base|)
    ensures |s| == |base|
  {
    if outs == [] then base
    else AddInto(Mix(base, outs[..|outs| - 1]), outs[|outs| - 1])
  }

  /** One more block mixed in is that block added onto the mix so far. */
  lemma MixAppend(base: seq<real>, outs: seq<seq<real>>, out: seq<real>)
    requires FitIn(outs, |base|) && |out| <= |base|
    ensures FitIn(outs + [out], |base|)
    ensures Mix(base, outs + [out]) == AddInto(Mix(base, outs), out)
  {
    assert (outs + [out])[..|outs|] == outs;
  }

  /** Sample `k` of a block, 0 past its end. */
  function SampleAt(block: seq<real>, k: int): real
  {
    if 0 <= k < |block| then block[k] else 0.0
  }

  /** The sum, over all blocks of `outs`, of their sample `k`. */
  function SumAt(outs: seq<seq<real>>, k: int): real
  {
    if outs == [] then 0.0
    else SumAt(outs[..|outs| - 1], k) + SampleAt(outs[|outs| - 1], k)
  }

  /** Mixing adds, at each sample, the sum of every block's sample there; an
      empty block (a slot with no instrument) adds nothing. */
  lemma {:induction false} MixAt(base: seq<real>, outs: seq<seq<real>>, k: int)
    requires FitIn(outs, |base|) && 0 <= k < |base|
    ensures Mix(base, outs)[k] == base[k] + SumAt(outs, k)
    decreases |outs|
  {
    if outs != [] {
      var pre := outs[..|outs| - 1];
      assert FitIn(pre, |base|);
      MixAt(base, pre, k);
    }
  }

  /** Into a cleared accumulator, the mix is exactly the per-sample sum. */
  lemma MixFromSilence(outs: seq<seq<real>>, n: nat)
    requires FitIn(outs, n)
    ensures var s := Mix(Zeros(n), outs);
      forall k :: 0 <= k < n ==> s[k] == SumAt(outs, k)
  {
    forall k | 0 <= k < n
      ensures Mix(Zeros(n), outs)[k] == SumAt(outs, k)
    {
      MixAt(Zeros(n), outs, k);
    }
  }

  /** Sets every sample of `a` to 0 (`Array.Clear`). */
  method Clear(a: array<real>)
    modifies a
    ensures a[..] == Zeros(a.Length)
  {
    forall k | 0 <= k < a.Length {
      a[k] := 0.0;
    }
  }

  /** Adds the first `samples` frames of two planar channels onto the front of
      an interleaved accumulator; the rest of the accumulator is unchanged. */
  method InterleaveAdd(left: array<real>, right: array<real>, output: array<real>, samples: int)
    requires output != left && output != right
    requires 0 <= samples <= left.Length && samples <= right.Length && 2 * samples <= output.Length
    modifies output
    ensures output[..] == AddInto(old(output[..]), Interleaved(left[..samples], right[..samples]))
  {
    ghost var before := output[..];
    var i := 0;
    while i < samples
      invariant 0 <= i <= samples
      invariant |before| == output.Length
      invariant forall j :: 0 <= j < i ==>
        output[2 * j] == before[2 * j] + left[j] && output[2 * j + 1] == before[2 * j + 1] + right[j]
      invariant forall k :: 2 * i <= k < output.Length ==> output[k] == before[k]
    {
      output[2 * i] := output[2 * i] + left[i];
      output[2 * i + 1] := output[2 * i + 1] + right[i];
      i := i + 1;
    }
    AddedFrames(output[..], before, left[..samples], right[..samples]);
  }
}
