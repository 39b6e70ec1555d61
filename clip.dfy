/** A stereo audio clip as its interleaved sample array, and the write both
    renderers use to fill it (Unity's `AudioClip.SetData`). The write starts
    at a frame offset and, past the end of the clip, continues at its start:
    the streaming player's looping clip relies on this. */
module ClipData {
  import opened SfizzEngine
  import opened Arith

  /** `data` written into `clip` from sample `start` on, continuing at the
      start of the clip past its end. */
  function RingWrite(clip: seq<real>, data: seq<real>, start: int): (r: seq<real>)
    requires |data| <= |clip|
    ensures |r| == |clip|
  {
    if |clip| == 0 then clip
    else
      seq(|clip|, p requires 0 <= p < |clip| =>
        var k := (p - start) % |clip|;
        if k < |data| then data[k] else clip[p])
  }

  /** Reading back after a ring write: sample `k` of `data` sits at
      `(start + k) mod |clip|`. */
  lemma RingWriteReadBack(clip: seq<real>, data: seq<real>, start: int, k: int)
    requires |data| <= |clip| && 0 <= k < |data|
    ensures RingWrite(clip, data, start)[(start + k) % |clip|] == data[k]
  {
    var n := |clip|;
    var p := (start + k) % n;
    var q := (start + k) / n;
    assert start + k == q * n + p;
    assert (-q) * n == -(q * n);
    DivModUnique(p - start, -q, k, n);
    assert 0 <= p < n;
  }

  /** A write that ends before the end of the clip replaces exactly the
      samples `[start, start + |data|)`. */
  lemma RingWriteInside(clip: seq<real>, data: seq<real>, start: int)
    requires 0 <= start && start + |data| <= |clip|
    ensures RingWrite(clip, data, start) == clip[..start] + data + clip[start + |data|..]
  {
    var n := |clip|;
    var r := RingWrite(clip, data, start);
    var t := clip[..start] + data + clip[start + |data|..];
    forall p | 0 <= p < n
      ensures r[p] == t[p]
    {
      if p < start {
        DivModUnique(p - start, -1, p - start + n, n);
      } else if p < start + |data| {
        DivModUnique(p - start, 0, p - start, n);
      } else {
        DivModUnique(p - start, 0, p - start, n);
      }
    }
  }

  /** Writing nothing leaves the clip as it was. */
  lemma RingWriteNothing(clip: seq<real>, start: int)
    ensures RingWrite(clip, [], start) == clip
  {
  }

  /** Writes `data` into the clip from frame `offset` on
      (`AudioClip.SetData(data, offset)`). */
  method SetData(clip: array<real>, data: array<real>, offset: int)
    requires clip != data && data.Length <= clip.Length
    modifies clip
    ensures clip[..] == RingWrite(old(clip[..]), data[..], Channels * offset)
  {
    var n := clip.Length;
    var start := Channels * offset;
    if n > 0 {
      forall p | 0 <= p < n && (p - start) % n < data.Length {
        clip[p] := data[(p - start) % n];
      }
      ghost var r := RingWrite(old(clip[..]), data[..], start);
      assert forall p :: 0 <= p < n ==> clip[p] == r[p];
    }
  }
}
