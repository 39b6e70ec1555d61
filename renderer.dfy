/** The offline MIDI renderer (Packages/sfizz-unity/Runtime/SfizzMidiRenderer.cs):
    events are handed to the instrument of their channel block by block,
    every live instrument renders every block, and the blocks are mixed into
    one stereo clip. This is the corrected renderer: full blocks are rendered
    while an event lies at or beyond the end of the current block, and the
    tail is rendered as full blocks and one non-empty remainder (the schedule
    as written is `BlockSchedule.ScheduleAsWritten`). */
module MidiRenderer {
  import opened SfizzEngine
  import opened Midi
  import opened Mixer
  import opened ClipData
  import opened BlockSchedule
  import opened Instruments
  import opened Arith

  /** The block `s` has just rendered: its last `n` frames, interleaved. */
  ghost function LastBlock(s: Sfizz, n: nat): seq<real>
    reads s
    requires s.rendered >= n
  {
    Interleaved(s.Output(0, s.rendered - n, n), s.Output(1, s.rendered - n, n))
  }

  /** The scratch buffers are the renderer's own, apart from the instruments
      and from each other. */
  ghost predicate Scratch(router: SfizzArray, left: array<real>, right: array<real>, acc: array<real>)
    reads router
  {
    && left !in router.Repr && right !in router.Repr && acc !in router.Repr
    && left != right && acc != left && acc != right
  }

  /** Every slot before `|outs|` has been resolved, and `outs` holds what
      each contributed to the last block of `n` frames: nothing for a slot
      without an instrument, otherwise the frames its instrument just
      rendered. */
  ghost predicate SlotsRendered(router: SfizzArray, outs: seq<seq<real>>, n: nat)
    reads router, router.Repr
  {
    && router.Valid()
    && |outs| <= router.Length()
    && (forall c {:trigger outs[c]} :: 0 <= c < |outs| ==> router.loadAttempted[c])
    && (forall c {:trigger outs[c]} :: 0 <= c < |outs| && router.sfizzes[c] == null ==> outs[c] == [])
    && (forall c {:trigger outs[c]} :: 0 <= c < |outs| && router.sfizzes[c] != null ==>
          router.sfizzes[c].rendered >= n && outs[c] == LastBlock(router.sfizzes[c], n))
  }

  /** Against the instruments `slots0` had when the block began, with the
      frame counts `counts0`: every slot still holds its instrument, and
      those before `|outs|` have rendered `n` more frames, the others none. */
  ghost predicate Advanced(router: SfizzArray, outs: seq<seq<real>>, n: nat, slots0: seq<Sfizz?>, counts0: map<Sfizz, int>)
    reads router, router.sfizzes, router.Repr
  {
    && |slots0| == router.sfizzes.Length
    && (forall c {:trigger slots0[c]} :: |outs| <= c < |slots0| ==> router.sfizzes[c] == slots0[c])
    && (forall c {:trigger slots0[c]} :: 0 <= c < |slots0| && slots0[c] != null ==>
          && router.sfizzes[c] == slots0[c] && slots0[c] in router.Repr && slots0[c] in counts0
          && slots0[c].rendered == counts0[slots0[c]] + (if c < |outs| then n else 0))
  }

  /** Slot `c`'s share of one block: its instrument renders `n` frames, which
      are added onto the interleaved accumulator. A slot without an
      instrument contributes nothing. */
  method RenderSlot(router: SfizzArray, c: int, left: array<real>, right: array<real>, acc: array<real>, n: int,
                    ghost outs: seq<seq<real>>, ghost slots0: seq<Sfizz?>, ghost counts0: map<Sfizz, int>)
    returns (ghost out: seq<real>)
    requires router.Valid() && 0 <= c < router.Length() && Scratch(router, left, right, acc)
    requires 0 < n <= MaxBlockSize && n <= left.Length && n <= right.Length && 2 * n <= acc.Length
    requires |outs| == c && SlotsRendered(router, outs, n) && Advanced(router, outs, n, slots0, counts0)
    modifies router.Repr, left, right, acc
    ensures router.Valid() && fresh(router.Repr - old(router.Repr)) && Scratch(router, left, right, acc)
    ensures SlotsRendered(router, outs + [out], n) && Advanced(router, outs + [out], n, slots0, counts0)
    ensures |out| <= acc.Length && acc[..] == AddInto(old(acc[..]), out)
    ensures Quiet(router)
  {
    var s;
    s, out := ResolveAndPlay(router, c, left, right, acc, n);
    SlotDone(router, c, s, out, n, outs, slots0, counts0);
    QuietSlot(router, c);
  }

  /** Resolving and playing slot `c` hands nothing to any instrument: the
      other slots are untouched, and slot `c`, now tried, kept what its
      instrument had received or got a new one that has received nothing. */
  twostate lemma QuietSlot(router: SfizzArray, new c: int)
    requires router.Valid() && 0 <= c < router.Length() && router.loadAttempted[c]
    requires forall d :: 0 <= d < router.Length() && d != c ==>
      router.sfizzes[d] == old(router.sfizzes[d]) && router.loadAttempted[d] == old(router.loadAttempted[d])
    requires forall d :: 0 <= d < router.Length() && d != c && old(router.sfizzes[d]) != null ==>
      unchanged(old(router.sfizzes[d]))
    requires old(router.sfizzes[c]) != null ==>
      router.sfizzes[c] == old(router.sfizzes[c]) && router.sfizzes[c].received == old(router.sfizzes[c].received)
    requires old(router.sfizzes[c]) == null && router.sfizzes[c] != null ==>
      !old(router.loadAttempted[c]) && router.sfizzes[c].received == []
    ensures Quiet(router)
  {
  }

  /** Slot `c`'s instrument, loaded on first use, renders `n` frames onto
      the accumulator; a slot without an instrument adds nothing. Every
      other instrument and slot is left as it was. */
  method ResolveAndPlay(router: SfizzArray, c: int, left: array<real>, right: array<real>, acc: array<real>, n: int)
    returns (s: Sfizz?, ghost out: seq<real>)
    requires router.Valid() && 0 <= c < router.Length() && Scratch(router, left, right, acc)
    requires 0 < n <= MaxBlockSize && n <= left.Length && n <= right.Length && 2 * n <= acc.Length
    modifies router.Repr, left, right, acc
    ensures router.Valid() && fresh(router.Repr - old(router.Repr)) && Scratch(router, left, right, acc)
    ensures router.loadAttempted[c] && s == router.sfizzes[c]
    ensures forall d :: 0 <= d < router.Length() && d != c ==>
      router.sfizzes[d] == old(router.sfizzes[d]) && router.loadAttempted[d] == old(router.loadAttempted[d])
    ensures forall d :: 0 <= d < router.Length() && d != c && old(router.sfizzes[d]) != null ==>
      unchanged(old(router.sfizzes[d]))
    ensures old(router.sfizzes[c]) != null ==>
      s == old(router.sfizzes[c]) && s.rendered == old(s.rendered) + n && s.received == old(s.received)
    ensures old(router.sfizzes[c]) == null && s != null ==> !old(router.loadAttempted[c]) && s.received == []
    ensures s == null ==> out == []
    ensures s != null ==> s.rendered >= n && out == LastBlock(s, n)
    ensures |out| <= acc.Length && acc[..] == AddInto(old(acc[..]), out)
  {
    assert router.Slot(c) == c;
    s := router.Get(c);
    if s == null {
      out := [];
      assert acc[..] == AddInto(old(acc[..]), out);
    } else {
      label Resolved:
      out := PlayInto(s, left, right, acc, n);
      router.PlayKeepsValid@Resolved(s);
    }
  }

  /** The bookkeeping of one slot: resolving slot `c` and playing its
      instrument, if any, extends what has been rendered by that slot and
      leaves every other slot as it was. */
  twostate lemma SlotDone(router: SfizzArray, new c: int, new s: Sfizz?, new out: seq<real>, new n: nat,
                          new outs: seq<seq<real>>, new slots0: seq<Sfizz?>, new counts0: map<Sfizz, int>)
    requires old(allocated(slots0)) && old(allocated(counts0))
    requires old(router.Valid()) && router.Valid() && 0 <= c < router.Length()
    requires |outs| == c && old(SlotsRendered(router, outs, n)) && old(Advanced(router, outs, n, slots0, counts0))
    requires router.loadAttempted[c] && s == router.sfizzes[c]
    requires forall d :: 0 <= d < router.Length() && d != c ==>
      router.sfizzes[d] == old(router.sfizzes[d]) && router.loadAttempted[d] == old(router.loadAttempted[d])
    requires forall d :: 0 <= d < router.Length() && d != c && old(router.sfizzes[d]) != null ==>
      unchanged(old(router.sfizzes[d]))
    requires old(router.sfizzes[c]) != null ==> s == old(router.sfizzes[c]) && s.rendered == old(s.rendered) + n
    requires s == null ==> out == []
    requires s != null ==> s.rendered >= n && out == LastBlock(s, n)
    ensures SlotsRendered(router, outs + [out], n) && Advanced(router, outs + [out], n, slots0, counts0)
  {
    var outs' := outs + [out];
    forall d | 0 <= d < |outs'|
      ensures router.loadAttempted[d]
      ensures router.sfizzes[d] == null ==> outs'[d] == []
      ensures router.sfizzes[d] != null ==>
        router.sfizzes[d] in router.Repr && router.sfizzes[d].rendered >= n && outs'[d] == LastBlock(router.sfizzes[d], n)
    {
      if d < c {
        var t := router.sfizzes[d];
        assert outs'[d] == outs[d] && t == old(router.sfizzes[d]);
      }
    }
    assert SlotsRendered(router, outs', n);
    forall d | 0 <= d < |slots0| && slots0[d] != null && d != c
      ensures slots0[d].rendered == counts0[slots0[d]] + (if d < |outs'| then n else 0)
    {
      assert slots0[d] == old(router.sfizzes[d]);
    }
  }

  /** One instrument renders `n` frames into the planar buffers, which are
      then added onto the interleaved accumulator. */
  method PlayInto(s: Sfizz, left: array<real>, right: array<real>, acc: array<real>, n: int)
    returns (ghost out: seq<real>)
    requires s.initialized && 0 < n <= s.samplesPerBlock
    requires left != right && acc != left && acc != right
    requires n <= left.Length && n <= right.Length && 2 * n <= acc.Length
    modifies s, left, right, acc
    ensures s.initialized && s.sampleRate == old(s.sampleRate) && s.samplesPerBlock == old(s.samplesPerBlock)
    ensures s.voice == old(s.voice) && s.received == old(s.received) && s.rendered == old(s.rendered) + n
    ensures out == LastBlock(s, n) && |out| <= acc.Length
    ensures acc[..] == AddInto(old(acc[..]), out)
  {
    ghost var from := s.rendered;
    s.RenderBlock(left, right, n);
    out := Interleaved(left[..n], right[..n]);
    assert out == LastBlock(s, n) by {
      assert s.rendered - n == from;
    }
    InterleaveAdd(left, right, acc, n);
  }

  /** One block of `n` frames from every slot, mixed onto the accumulator. Every
      slot is resolved (and so loaded, on its first block); every live
      instrument advances by `n` frames and contributes the frames it
      rendered. */
  method RenderBuffer(router: SfizzArray, left: array<real>, right: array<real>, acc: array<real>, n: int)
    returns (ghost outs: seq<seq<real>>)
    requires router.Valid() && Scratch(router, left, right, acc)
    requires 0 < n <= MaxBlockSize && n <= left.Length && n <= right.Length && 2 * n <= acc.Length
    modifies router.Repr, left, right, acc
    ensures router.Valid() && fresh(router.Repr - old(router.Repr))
    ensures |outs| == router.Length() && SlotsRendered(router, outs, n)
    ensures forall c :: 0 <= c < |outs| && old(router.sfizzes[c]) != null ==>
      router.sfizzes[c] == old(router.sfizzes[c]) && router.sfizzes[c].rendered == old(router.sfizzes[c].rendered) + n
    ensures FitIn(outs, acc.Length) && acc[..] == Mix(old(acc[..]), outs)
    ensures Quiet(router)
  {
    ghost var slots0 := router.sfizzes[..];
    ghost var counts0 := map t | t in router.Synths() :: t.rendered;
    ghost var acc0 := acc[..];
    AdvancedStart(router, n, slots0, counts0);
    label Entry:
    outs := [];
    var i := 0;
    while i < router.Length()
      invariant 0 <= i <= router.Length() && |outs| == i
      invariant router.Valid() && fresh(router.Repr - old(router.Repr)) && Scratch(router, left, right, acc)
      invariant SlotsRendered(router, outs, n) && Advanced(router, outs, n, slots0, counts0)
      invariant FitIn(outs, acc.Length) && acc[..] == Mix(acc0, outs)
      invariant Quiet(router)
    {
      ghost var out := RenderSlot(router, i, left, right, acc, n, outs, slots0, counts0);
      MixAppend(acc0, outs, out);
      outs := outs + [out];
      i := i + 1;
    }
    AdvancedDone@Entry(router, outs, n, slots0, counts0);
  }

  /** Before any slot has played, every slot holds its instrument with the
      frame count recorded for it. */
  lemma AdvancedStart(router: SfizzArray, n: nat, slots0: seq<Sfizz?>, counts0: map<Sfizz, int>)
    requires router.Valid() && slots0 == router.sfizzes[..]
    requires counts0 == map t | t in router.Synths() :: t.rendered
    ensures Advanced(router, [], n, slots0, counts0)
  {
    forall c | 0 <= c < |slots0| && slots0[c] != null
      ensures slots0[c] in router.Synths()
    {
      assert slots0[c] == router.sfizzes[c];
    }
  }

  /** Once every slot has played, every instrument that was there has
      rendered `n` more frames. */
  twostate lemma AdvancedDone(router: SfizzArray, new outs: seq<seq<real>>, new n: nat,
                              new slots0: seq<Sfizz?>, new counts0: map<Sfizz, int>)
    requires old(router.Valid()) && slots0 == old(router.sfizzes[..])
    requires counts0 == old(map t | t in router.Synths() :: t.rendered)
    requires |outs| == router.Length() && Advanced(router, outs, n, slots0, counts0)
    ensures forall c :: 0 <= c < |outs| && old(router.sfizzes[c]) != null ==>
      router.sfizzes[c] == old(router.sfizzes[c]) && router.sfizzes[c].rendered == old(router.sfizzes[c].rendered) + n
  {
    forall c | 0 <= c < |outs| && old(router.sfizzes[c]) != null
      ensures router.sfizzes[c] == old(router.sfizzes[c]) && router.sfizzes[c].rendered == old(router.sfizzes[c].rendered) + n
    {
      assert slots0[c] == old(router.sfizzes[c]);
    }
  }

  /** Renders one block of `n` frames from every slot onto the accumulator
      and writes the accumulator into the clip at frame `offset`; the rest of
      the clip is unchanged. */
  method RenderBlockToClip(router: SfizzArray, left: array<real>, right: array<real>, acc: array<real>,
                           clip: array<real>, offset: int, n: int)
    returns (ghost outs: seq<seq<real>>)
    requires router.Valid() && Scratch(router, left, right, acc)
    requires clip !in router.Repr && clip != left && clip != right && clip != acc
    requires 0 < n <= MaxBlockSize && n <= left.Length && n <= right.Length && acc.Length == Channels * n
    requires 0 <= offset && Channels * (offset + n) <= clip.Length
    modifies router.Repr, left, right, acc, clip
    ensures router.Valid() && fresh(router.Repr - old(router.Repr))
    ensures |outs| == router.Length() && SlotsRendered(router, outs, n) && FitIn(outs, acc.Length)
    ensures clip[..] == old(clip[..])[..Channels * offset] + Mix(old(acc[..]), outs)
                      + old(clip[..])[Channels * (offset + n)..]
    ensures Quiet(router)
  {
    ghost var before := clip[..];
    outs := RenderBuffer(router, left, right, acc, n);
    assert clip[..] == before && clip !in router.Repr;
    WriteInside(clip, acc, offset, n);
  }

  /** Writes the accumulator, `n` frames, into the clip at frame `offset`,
      short of the clip's end. */
  method WriteInside(clip: array<real>, acc: array<real>, offset: int, n: int)
    requires clip != acc && 0 <= offset && acc.Length == Channels * n && Channels * (offset + n) <= clip.Length
    modifies clip
    ensures clip[..] == old(clip[..])[..Channels * offset] + acc[..] + old(clip[..])[Channels * (offset + n)..]
  {
    SetData(clip, acc, offset);
    RingWriteInside(old(clip[..]), acc[..], Channels * offset);
  }

  /** Blocks of samples, one after the other. */
  function Concat(blocks: seq<seq<real>>): seq<real>
  {
    if blocks == [] then [] else Concat(blocks[..|blocks| - 1]) + blocks[|blocks| - 1]
  }

  /** The renderer's buffers: the clip, two planar block buffers and the
      interleaved accumulator, all its own. */
  ghost predicate Buffers(router: SfizzArray, clip: array<real>, left: array<real>, right: array<real>, acc: array<real>)
    reads router
  {
    && Scratch(router, left, right, acc)
    && clip !in router.Repr && clip != left && clip != right && clip != acc
    && left.Length == MaxBlockSize && right.Length == MaxBlockSize && acc.Length == Channels * MaxBlockSize
  }

  /** What the clip holds so far: `mixes` are the blocks written, one per
      block step of `trace` and of its size, back to back from frame 0. */
  ghost predicate Written(clip: array<real>, offset: int, trace: seq<Step>, mixes: seq<seq<real>>)
    reads clip
  {
    && 0 <= Channels * offset <= clip.Length
    && clip[..Channels * offset] == Concat(mixes)
    && |mixes| == |Blocks(trace)|
    && (forall j :: 0 <= j < |mixes| ==> Blocks(trace)[j].Block? && |mixes[j]| == Channels * Blocks(trace)[j].size)
  }

  /** One message as an instrument is handed it: its delay into the block
      and the message itself. */
  datatype Delivery = Delivery(delay: int, message: ChannelMessage)

  /** The messages an instrument has received, without the frame counts at
      which they arrived. */
  function Sent(rs: seq<Received>): (ds: seq<Delivery>)
    ensures |ds| == |rs|
    ensures forall i :: 0 <= i < |rs| ==> ds[i] == Delivery(rs[i].delay, rs[i].message)
  {
    if rs == [] then [] else Sent(rs[..|rs| - 1]) + [Delivery(rs[|rs| - 1].delay, rs[|rs| - 1].message)]
  }

  /** The messages of `events` meant for slot `d`: every channel event whose
      channel resolves to `d` (every channel does in singular mode), in order,
      each at its time's frame within its block of `B`. */
  function ForSlot(events: seq<TimedEvent>, singular: bool, d: int, B: nat): seq<Delivery>
    requires B > 0
  {
    if events == [] then []
    else
      var e := events[|events| - 1];
      ForSlot(events[..|events| - 1], singular, d, B)
        + (if e.event.ChannelEvent? && (if singular then 0 else e.event.channel) == d
           then [Delivery(e.time % B, e.event.message)] else [])
  }

  /** What each slot's instrument has received so far; nothing for a slot
      without one. */
  ghost function Inbox(router: SfizzArray): (inbox: seq<seq<Delivery>>)
    reads router, router.sfizzes, router.Synths()
    ensures |inbox| == router.sfizzes.Length
    ensures forall d :: 0 <= d < |inbox| ==>
      inbox[d] == if router.sfizzes[d] != null then Sent(router.sfizzes[d].received) else []
  {
    seq(router.sfizzes.Length, d reads router, router.sfizzes, router.Synths() requires 0 <= d < router.sfizzes.Length =>
      if router.sfizzes[d] != null then Sent(router.sfizzes[d].received) else [])
  }

  /** Every instrument has received, after what `base` says it held, exactly
      the messages `steps` routed to its slot. A slot without an instrument
      held nothing, and no message has been routed to a slot not yet tried. */
  ghost predicate Delivered(router: SfizzArray, base: seq<seq<Delivery>>, steps: seq<Step>)
    reads router, router.Repr
  {
    && router.Valid()
    && |base| == router.sfizzes.Length
    && forall d :: 0 <= d < |base| ==>
         && (router.sfizzes[d] == null ==> base[d] == [])
         && (router.sfizzes[d] != null ==>
               Sent(router.sfizzes[d].received) == base[d] + ForSlot(Routed(steps), router.singular, d, MaxBlockSize))
         && (!router.loadAttempted[d] ==> ForSlot(Routed(steps), router.singular, d, MaxBlockSize) == [])
  }

  /** No instrument has been handed anything since the old state: each one
      there was is still in its slot and has received nothing more, one
      loaded since comes from a slot not tried before and has received
      nothing, and every slot tried before still counts as tried. */
  twostate predicate Quiet(router: SfizzArray)
    reads router, router.sfizzes, router.loadAttempted, router.Synths()
  {
    && router.loadAttempted.Length == router.sfizzes.Length
    && forall d :: 0 <= d < router.sfizzes.Length ==>
         && (old(router.loadAttempted[d]) ==> router.loadAttempted[d])
         && (old(router.sfizzes[d]) != null ==>
               router.sfizzes[d] == old(router.sfizzes[d])
               && router.sfizzes[d].received == old(router.sfizzes[d].received))
         && (old(router.sfizzes[d]) == null && router.sfizzes[d] != null ==>
               !old(router.loadAttempted[d]) && router.sfizzes[d].received == [])
  }

  /** One more message for slot `d` when `e` is a channel event that resolves
      to it, none otherwise. */
  lemma ForSlotAppend(events: seq<TimedEvent>, e: TimedEvent, singular: bool, d: int, B: nat)
    requires B > 0
    ensures ForSlot(events + [e], singular, d, B)
      == ForSlot(events, singular, d, B)
         + (if e.event.ChannelEvent? && (if singular then 0 else e.event.channel) == d
            then [Delivery(e.time % B, e.event.message)] else [])
  {
    assert (events + [e])[..|events|] == events;
  }

  /** Before any step, every instrument holds what it holds. */
  lemma InboxDelivered(router: SfizzArray)
    requires router.Valid()
    ensures Delivered(router, Inbox(router), [])
  {
  }

  /** Rendering keeps the deliveries: once the steps have grown by blocks
      alone, every instrument has still received exactly what they route
      to it. */
  twostate lemma QuietDelivered(router: SfizzArray, new base: seq<seq<Delivery>>, new steps: seq<Step>,
                                new steps': seq<Step>)
    requires old(Delivered(router, base, steps)) && router.Valid() && Quiet(router)
    requires Routed(steps') == Routed(steps)
    ensures Delivered(router, base, steps')
  {
  }

  /** A message handed to the instrument of its channel's slot is the next
      delivery the steps route there; every other slot is left as it was. */
  twostate lemma DispatchDelivered(router: SfizzArray, new base: seq<seq<Delivery>>, new steps: seq<Step>,
                                   new time: nat, new channel: int, new message: ChannelMessage, new s: Sfizz?)
    requires old(Delivered(router, base, steps)) && router.Valid()
    requires s != null ==> 0 <= router.Slot(channel) < router.Length()
    requires forall d :: 0 <= d < router.Length() && d != router.Slot(channel) ==>
      router.sfizzes[d] == old(router.sfizzes[d]) && router.loadAttempted[d] == old(router.loadAttempted[d])
    requires forall d :: 0 <= d < router.Length() && old(router.sfizzes[d]) != null && old(router.sfizzes[d]) != s ==>
      unchanged(old(router.sfizzes[d]))
    requires var c := router.Slot(channel);
      0 <= c < router.Length() ==>
        && router.loadAttempted[c] && s == router.sfizzes[c]
        && (old(router.sfizzes[c]) != null ==>
              s == old(router.sfizzes[c])
              && s.received == old(router.sfizzes[c].received) + [Received(time % MaxBlockSize, message, s.rendered)])
        && (old(router.sfizzes[c]) == null && s != null ==>
              !old(router.loadAttempted[c]) && s.received == [Received(time % MaxBlockSize, message, 0)])
    ensures Delivered(router, base, steps + [Route(time, channel, time % MaxBlockSize, message)])
  {
    var route := Route(time, channel, time % MaxBlockSize, message);
    var e := TimedEvent(time, ChannelEvent(channel, message));
    AppendStep(steps, route);
    var c := router.Slot(channel);
    forall d | 0 <= d < |base|
      ensures router.sfizzes[d] == null ==> base[d] == []
      ensures router.sfizzes[d] != null ==>
        Sent(router.sfizzes[d].received) == base[d] + ForSlot(Routed(steps + [route]), router.singular, d, MaxBlockSize)
      ensures !router.loadAttempted[d] ==> ForSlot(Routed(steps + [route]), router.singular, d, MaxBlockSize) == []
    {
      var before := ForSlot(Routed(steps), router.singular, d, MaxBlockSize);
      ForSlotAppend(Routed(steps), e, router.singular, d, MaxBlockSize);
      if d != c {
        assert ForSlot(Routed(steps + [route]), router.singular, d, MaxBlockSize) == before;
        if router.sfizzes[d] != null && s != null {
          assert s == router.sfizzes[c] != router.sfizzes[d];
        }
      } else {
        var m := Delivery(time % MaxBlockSize, message);
        assert ForSlot(Routed(steps + [route]), router.singular, d, MaxBlockSize) == before + [m];
        if old(router.sfizzes[c]) != null {
          var rs := old(router.sfizzes[c].received);
          assert Sent(rs + [Received(time % MaxBlockSize, message, s.rendered)]) == Sent(rs) + [m];
        } else if s != null {
          assert Sent([Received(time % MaxBlockSize, message, 0)]) == [m];
        }
      }
    }
  }

  lemma WrittenBlock(clip: seq<real>, clip': seq<real>, offset: int, n: int, mixes: seq<seq<real>>, mix: seq<real>)
    requires 0 <= offset && 0 < n && Channels * (offset + n) <= |clip| == |clip'|
    requires |mix| == Channels * n
    requires clip[..Channels * offset] == Concat(mixes)
    requires clip' == clip[..Channels * offset] + mix + clip[Channels * (offset + n)..]
    ensures clip'[..Channels * (offset + n)] == Concat(mixes + [mix])
  {
    assert (mixes + [mix])[..|mixes|] == mixes;
    assert clip'[..Channels * (offset + n)] == clip[..Channels * offset] + mix;
  }

  /** Renders one block of `n` frames at `offset` into a silent accumulator,
      writes it to the clip and records it. */
  method WriteBlock(router: SfizzArray, clip: array<real>, left: array<real>, right: array<real>, acc: array<real>,
                    offset: int, n: int, ghost trace: seq<Step>, ghost mixes: seq<seq<real>>,
                    ghost base: seq<seq<Delivery>>)
    returns (ghost mixes': seq<seq<real>>)
    requires router.Valid() && Scratch(router, left, right, acc)
    requires clip !in router.Repr && clip != left && clip != right && clip != acc
    requires 0 < n <= MaxBlockSize && n <= left.Length && n <= right.Length
    requires acc.Length == Channels * n && acc[..] == Zeros(Channels * n)
    requires Written(clip, offset, trace, mixes) && Channels * (offset + n) <= clip.Length
    requires Delivered(router, base, trace)
    modifies router.Repr, left, right, acc, clip
    ensures router.Valid() && fresh(router.Repr - old(router.Repr))
    ensures Scratch(router, left, right, acc) && clip !in router.Repr
    ensures Written(clip, offset + n, trace + [Block(offset, n)], mixes')
    ensures Delivered(router, base, trace + [Block(offset, n)])
  {
    ghost var before := clip[..];
    var outs := RenderBlockToClip(router, left, right, acc, clip, offset, n);
    ghost var mix := Mix(Zeros(Channels * n), outs);
    WrittenBlock(before, clip[..], offset, n, mixes, mix);
    mixes' := mixes + [mix];
    AppendStep(trace, Block(offset, n));
    QuietDelivered(router, base, trace, trace + [Block(offset, n)]);
  }

  /** Renders full blocks while `time` lies at or beyond the end of the
      current block; afterwards `time` falls inside the block at `offset'`. */
  method CatchUp(router: SfizzArray, clip: array<real>, left: array<real>, right: array<real>, acc: array<real>,
                 time: int, offset: int, ghost trace: seq<Step>, ghost mixes: seq<seq<real>>,
                 ghost base: seq<seq<Delivery>>)
    returns (offset': int, ghost trace': seq<Step>, ghost mixes': seq<seq<real>>)
    requires router.Valid() && Buffers(router, clip, left, right, acc) && Written(clip, offset, trace, mixes)
    requires 0 <= offset <= time && Channels * time <= clip.Length
    requires Delivered(router, base, trace)
    modifies router.Repr, left, right, acc, clip
    ensures router.Valid() && fresh(router.Repr - old(router.Repr)) && Buffers(router, clip, left, right, acc)
    ensures Written(clip, offset', trace', mixes') && Delivered(router, base, trace')
    ensures var k := (time - offset) / MaxBlockSize;
      offset' == offset + k * MaxBlockSize && trace' == trace + FullBlocks(offset, k, MaxBlockSize)
    ensures offset' <= time < offset' + MaxBlockSize
  {
    var B := MaxBlockSize;
    offset', trace', mixes' := offset, trace, mixes;
    ghost var m := 0;
    while time >= offset' + B
      invariant offset <= offset' <= time
      invariant offset' == offset + m * B && trace' == trace + FullBlocks(offset, m, B)
      invariant router.Valid() && fresh(router.Repr - old(router.Repr))
      invariant Buffers(router, clip, left, right, acc)
      invariant Written(clip, offset', trace', mixes')
      invariant Delivered(router, base, trace')
    {
      assert Channels * (offset' + B) <= clip.Length by {
        MulMono(offset' + B, time, Channels);
      }
      NextFullBlock(trace, offset, m, B);
      mixes' := FullBlock(router, clip, left, right, acc, offset', trace', mixes', base);
      trace' := trace' + [Block(offset', B)];
      offset' := offset' + B;
      m := m + 1;
    }
    DivModUnique(time - offset, m, time - offset', B);
  }

  /** One more full block after `m` of them. */
  lemma NextFullBlock(trace: seq<Step>, offset: int, m: nat, B: nat)
    ensures offset + m * B + B == offset + (m + 1) * B
    ensures (trace + FullBlocks(offset, m, B)) + [Block(offset + m * B, B)] == trace + FullBlocks(offset, m + 1, B)
  {
    FullBlocksAppend(offset, m, 1, B);
    assert FullBlocks(offset + m * B, 1, B) == [Block(offset + m * B, B)];
  }

  /** One event through the renderer: a non-channel event, or one before
      `offset`, is dropped; a channel event first brings the clip up to its
      block, then goes to its channel's instrument, if any, at delay
      `time % B`. */
  method Advance(router: SfizzArray, clip: array<real>, left: array<real>, right: array<real>, acc: array<real>,
                 e: TimedEvent, offset: int, ghost trace: seq<Step>, ghost mixes: seq<seq<real>>,
                 ghost base: seq<seq<Delivery>>)
    returns (offset': int, ghost trace': seq<Step>, ghost mixes': seq<seq<real>>)
    requires router.Valid() && Buffers(router, clip, left, right, acc) && Written(clip, offset, trace, mixes)
    requires 0 <= offset && Channels * e.time <= clip.Length
    requires Delivered(router, base, trace)
    modifies router.Repr, left, right, acc, clip
    ensures router.Valid() && fresh(router.Repr - old(router.Repr)) && Buffers(router, clip, left, right, acc)
    ensures Written(clip, offset', trace', mixes') && Delivered(router, base, trace')
    ensures Process(Progress(offset, trace), e, MaxBlockSize, false) == Progress(offset', trace')
  {
    offset', trace', mixes' := offset, trace, mixes;
    if e.event.OtherEvent? || e.time < offset {
      return;
    }
    var time := e.time;
    offset', trace', mixes' := CatchUp(router, clip, left, right, acc, time, offset, trace, mixes, base);
    var delay := time % MaxBlockSize;
    label Caught:
    var s := Dispatch(router, e.event.channel, delay, e.event.message);
    DispatchDelivered@Caught(router, base, trace', time, e.event.channel, e.event.message, s);
    RouteAfterBlocks(Progress(offset, trace), e, MaxBlockSize, trace');
    AppendStep(trace', Route(time, e.event.channel, delay, e.event.message));
    trace' := trace' + [Route(time, e.event.channel, delay, e.event.message)];
  }

  /** A channel event at or after the offset, once the blocks before it are
      written, goes to the router as the next step. */
  lemma RouteAfterBlocks(p: Progress, e: TimedEvent, B: nat, steps: seq<Step>)
    requires B > 0 && e.event.ChannelEvent? && e.time >= p.offset
    requires steps == p.steps + FullBlocks(p.offset, (e.time - p.offset) / B, B)
    ensures var k := (e.time - p.offset) / B;
      Process(p, e, B, false)
        == Progress(p.offset + k * B, steps + [Route(e.time, e.event.channel, e.time % B, e.event.message)])
  {
  }

  /** Sends one channel message to the instrument of its channel, loading
      that instrument on first use; a channel whose instrument is missing or
      failed to load drops the message. */
  method Dispatch(router: SfizzArray, channel: int, delay: int, message: ChannelMessage) returns (s: Sfizz?)
    requires router.Valid()
    modifies router.Repr
    ensures router.Valid() && fresh(router.Repr - old(router.Repr))
    ensures s != null <==> 0 <= router.Slot(channel) < router.Length() && router.library.loads(router.sfzPaths[router.Slot(channel)])
    ensures s != null ==> |s.received| > 0 && s.received[|s.received| - 1] == Received(delay, message, s.rendered)
    ensures s != null && !fresh(s) ==> s.received == old(s.received) + [Received(delay, message, s.rendered)]
    ensures forall d :: 0 <= d < router.Length() && d != router.Slot(channel) ==>
      router.sfizzes[d] == old(router.sfizzes[d]) && router.loadAttempted[d] == old(router.loadAttempted[d])
    ensures forall d :: 0 <= d < router.Length() && old(router.sfizzes[d]) != null && old(router.sfizzes[d]) != s ==>
      unchanged(old(router.sfizzes[d]))
    ensures var c := router.Slot(channel);
      0 <= c < router.Length() ==>
        && router.loadAttempted[c] && s == router.sfizzes[c]
        && (old(router.sfizzes[c]) != null ==>
              s == old(router.sfizzes[c])
              && s.received == old(router.sfizzes[c].received) + [Received(delay, message, s.rendered)]
              && s.rendered == old(router.sfizzes[c].rendered))
        && (old(router.sfizzes[c]) == null && s != null ==>
              fresh(s) && !old(router.loadAttempted[c]) && s.received == [Received(delay, message, 0)] && s.rendered == 0)
  {
    s := router.Get(channel);
    if s != null {
      label Resolved:
      s.Send(delay, message);
      router.PlayKeepsValid@Resolved(s);
    }
  }

  /** The rest of the clip after the last event: full blocks, then one
      non-empty remainder; nothing when the clip is already full. */
  method RenderTail(router: SfizzArray, clip: array<real>, left: array<real>, right: array<real>, acc: array<real>,
                    offset: int, total: int, ghost trace: seq<Step>, ghost mixes: seq<seq<real>>,
                    ghost base: seq<seq<Delivery>>)
    returns (ghost trace': seq<Step>, ghost mixes': seq<seq<real>>)
    requires router.Valid() && Buffers(router, clip, left, right, acc) && Written(clip, offset, trace, mixes)
    requires 0 <= offset <= total && Channels * total <= clip.Length
    requires Delivered(router, base, trace)
    modifies router.Repr, left, right, acc, clip
    ensures router.Valid() && fresh(router.Repr - old(router.Repr))
    ensures trace' == trace + Cover(offset, total, MaxBlockSize)
    ensures Written(clip, total, trace', mixes') && Delivered(router, base, trace')
  {
    var at;
    at, trace', mixes' := TailBlocks(router, clip, left, right, acc, offset, total, trace, mixes, base);
    if total > at {
      mixes' := Remainder(router, clip, left, right, at, total - at, trace', mixes', base);
      CoverLast(at, total, MaxBlockSize);
      trace' := trace' + [Block(at, total - at)];
    } else {
      assert Cover(at, total, MaxBlockSize) == [];
    }
  }

  /** The last, partial block: `size` frames at `offset`, mixed in a fresh
      accumulator of its own size. */
  method Remainder(router: SfizzArray, clip: array<real>, left: array<real>, right: array<real>,
                   offset: int, size: int, ghost trace: seq<Step>, ghost mixes: seq<seq<real>>,
                   ghost base: seq<seq<Delivery>>)
    returns (ghost mixes': seq<seq<real>>)
    requires router.Valid() && Written(clip, offset, trace, mixes) && Delivered(router, base, trace)
    requires left !in router.Repr && right !in router.Repr && left != right
    requires clip !in router.Repr && clip != left && clip != right
    requires 0 < size <= MaxBlockSize && size <= left.Length && size <= right.Length
    requires Channels * (offset + size) <= clip.Length
    modifies router.Repr, left, right, clip
    ensures router.Valid() && fresh(router.Repr - old(router.Repr))
    ensures Written(clip, offset + size, trace + [Block(offset, size)], mixes')
    ensures Delivered(router, base, trace + [Block(offset, size)])
  {
    var last := new real[Channels * size](_ => 0.0);
    assert last[..] == Zeros(Channels * size);
    mixes' := WriteBlock(router, clip, left, right, last, offset, size, trace, mixes, base);
  }

  /** The full blocks of the tail, while more than a block is left. */
  method TailBlocks(router: SfizzArray, clip: array<real>, left: array<real>, right: array<real>, acc: array<real>,
                    offset: int, total: int, ghost trace: seq<Step>, ghost mixes: seq<seq<real>>,
                    ghost base: seq<seq<Delivery>>)
    returns (at: int, ghost trace': seq<Step>, ghost mixes': seq<seq<real>>)
    requires router.Valid() && Buffers(router, clip, left, right, acc) && Written(clip, offset, trace, mixes)
    requires 0 <= offset <= total && Channels * total <= clip.Length && Delivered(router, base, trace)
    modifies router.Repr, left, right, acc, clip
    ensures router.Valid() && fresh(router.Repr - old(router.Repr)) && Buffers(router, clip, left, right, acc)
    ensures offset <= at <= total && total - at <= MaxBlockSize
    ensures trace' + Cover(at, total, MaxBlockSize) == trace + Cover(offset, total, MaxBlockSize)
    ensures Written(clip, at, trace', mixes') && Delivered(router, base, trace')
  {
    var B := MaxBlockSize;
    at := offset;
    trace', mixes' := trace, mixes;
    while total - at > B
      invariant offset <= at <= total
      invariant trace' + Cover(at, total, B) == trace + Cover(offset, total, B)
      invariant router.Valid() && fresh(router.Repr - old(router.Repr))
      invariant Buffers(router, clip, left, right, acc)
      invariant Written(clip, at, trace', mixes') && Delivered(router, base, trace')
    {
      mixes' := FullBlock(router, clip, left, right, acc, at, trace', mixes', base);
      CoverAdvance(trace', at, total, B);
      trace' := trace' + [Block(at, B)];
      at := at + B;
    }
  }

  /** One full block at `offset`, rendered from silence. */
  method FullBlock(router: SfizzArray, clip: array<real>, left: array<real>, right: array<real>, acc: array<real>,
                   offset: int, ghost trace: seq<Step>, ghost mixes: seq<seq<real>>,
                   ghost base: seq<seq<Delivery>>)
    returns (ghost mixes': seq<seq<real>>)
    requires router.Valid() && Buffers(router, clip, left, right, acc) && Written(clip, offset, trace, mixes)
    requires Channels * (offset + MaxBlockSize) <= clip.Length && Delivered(router, base, trace)
    modifies router.Repr, left, right, acc, clip
    ensures router.Valid() && fresh(router.Repr - old(router.Repr)) && Buffers(router, clip, left, right, acc)
    ensures Written(clip, offset + MaxBlockSize, trace + [Block(offset, MaxBlockSize)], mixes')
    ensures Delivered(router, base, trace + [Block(offset, MaxBlockSize)])
  {
    Clear(acc);
    mixes' := WriteBlock(router, clip, left, right, acc, offset, MaxBlockSize, trace, mixes, base);
  }

  /** Renders a time-ordered event list into a fresh stereo clip as long as
      the list (its last event's frame). Each channel event goes, at a delay
      inside the current block, to the instrument of its channel if it has
      one; every block is the mix of all live instruments; the blocks follow
      `BlockSchedule.Schedule` and fill the clip back to back. */
  method RenderEvents(events: seq<TimedEvent>, router: SfizzArray)
    returns (clip: array<real>, ghost trace: seq<Step>, ghost mixes: seq<seq<real>>)
    requires router.Valid() && Sorted(events)
    modifies router.Repr
    ensures router.Valid() && fresh(router.Repr - old(router.Repr))
    ensures fresh(clip) && clip.Length == Channels * Duration(events)
    ensures trace == Schedule(events, MaxBlockSize)
    ensures Written(clip, Duration(events), trace, mixes)
    ensures forall d :: 0 <= d < router.Length() && router.sfizzes[d] != null ==>
      Sent(router.sfizzes[d].received)
        == old(Inbox(router))[d] + ForSlot(ChannelEventsOf(events), router.singular, d, MaxBlockSize)
    ensures forall d :: 0 <= d < router.Length() && ForSlot(ChannelEventsOf(events), router.singular, d, MaxBlockSize) != [] ==>
      router.loadAttempted[d]
  {
    ghost var base := Inbox(router);
    InboxDelivered(router);
    if |events| == 0 {
      clip := new real[0];
      trace, mixes := [], [];
      return;
    }
    clip, trace, mixes := RenderClip(events, router, base);
    ScheduleDispatches(events, MaxBlockSize);
  }

  /** A non-empty event list into a fresh clip: every event in turn, then
      the blocks up to the last event's frame. */
  method RenderClip(events: seq<TimedEvent>, router: SfizzArray, ghost base: seq<seq<Delivery>>)
    returns (clip: array<real>, ghost trace: seq<Step>, ghost mixes: seq<seq<real>>)
    requires router.Valid() && Sorted(events) && events != [] && Delivered(router, base, [])
    modifies router.Repr
    ensures router.Valid() && fresh(router.Repr - old(router.Repr))
    ensures fresh(clip) && clip.Length == Channels * Duration(events)
    ensures trace == Schedule(events, MaxBlockSize)
    ensures Written(clip, Duration(events), trace, mixes) && Delivered(router, base, trace)
  {
    var B := MaxBlockSize;
    var total := events[|events| - 1].time;
    var left, right, acc;
    clip, left, right, acc := NewBuffers(total);
    ghost var repr := router.Repr;
    var offset;
    offset, trace, mixes := RenderAll(events, router, clip, left, right, acc, base);
    assert fresh(router.Repr - repr);
    AllEvents(events, B, Progress(offset, trace));
    trace, mixes := RenderTail(router, clip, left, right, acc, offset, total, trace, mixes, base);
    assert fresh(router.Repr - repr);
  }

  /** A silent clip of `total` frames and the block buffers, all new. */
  method NewBuffers(total: nat) returns (clip: array<real>, left: array<real>, right: array<real>, acc: array<real>)
    ensures fresh(clip) && fresh(left) && fresh(right) && fresh(acc)
    ensures clip.Length == Channels * total && clip[..] == Zeros(Channels * total)
    ensures left != right && acc != left && acc != right && clip != left && clip != right && clip != acc
    ensures left.Length == MaxBlockSize && right.Length == MaxBlockSize && acc.Length == Channels * MaxBlockSize
  {
    clip := new real[Channels * total](_ => 0.0);
    left := new real[MaxBlockSize](_ => 0.0);
    right := new real[MaxBlockSize](_ => 0.0);
    acc := new real[Channels * MaxBlockSize](_ => 0.0);
    assert clip[..] == Zeros(Channels * total);
  }

  /** Every event in turn, from an empty clip: the blocks before each
      channel event, and the event handed to its instrument. */
  method RenderAll(events: seq<TimedEvent>, router: SfizzArray,
                   clip: array<real>, left: array<real>, right: array<real>, acc: array<real>,
                   ghost base: seq<seq<Delivery>>)
    returns (offset: int, ghost trace: seq<Step>, ghost mixes: seq<seq<real>>)
    requires router.Valid() && Sorted(events) && events != [] && Delivered(router, base, [])
    requires Buffers(router, clip, left, right, acc) && Channels * events[|events| - 1].time <= clip.Length
    modifies router.Repr, left, right, acc, clip
    ensures router.Valid() && fresh(router.Repr - old(router.Repr)) && Buffers(router, clip, left, right, acc)
    ensures 0 <= offset && Run(events[..|events|], MaxBlockSize, false) == Progress(offset, trace)
    ensures Written(clip, offset, trace, mixes) && Delivered(router, base, trace)
  {
    var B := MaxBlockSize;
    offset, trace, mixes := 0, [], [];
    var i := 0;
    while i < |events|
      invariant 0 <= i <= |events| && 0 <= offset
      invariant Run(events[..i], B, false) == Progress(offset, trace)
      invariant router.Valid() && fresh(router.Repr - old(router.Repr))
      invariant Buffers(router, clip, left, right, acc)
      invariant Written(clip, offset, trace, mixes) && Delivered(router, base, trace)
    {
      EventStep(events, i, B);
      offset, trace, mixes := Advance(router, clip, left, right, acc, events[i], offset, trace, mixes, base);
      i := i + 1;
    }
  }

  /** Event `i` of a time-ordered list lies within the clip, and taking it
      extends the run over the events before it by one step. */
  lemma EventStep(events: seq<TimedEvent>, i: int, B: nat)
    requires Sorted(events) && 0 <= i < |events| && B > 0
    ensures events[i].time <= events[|events| - 1].time
    ensures Run(events[..i + 1], B, false) == Process(Run(events[..i], B, false), events[i], B, false)
  {
    assert events[..i + 1][..i] == events[..i];
  }

  /** After every event of a non-empty time-ordered list, the offset lies
      within the clip, and the schedule is that run followed by the blocks
      that cover the rest of the clip. */
  lemma AllEvents(events: seq<TimedEvent>, B: nat, p: Progress)
    requires Sorted(events) && events != [] && B > 0
    requires Run(events[..|events|], B, false) == p
    ensures 0 <= p.offset <= events[|events| - 1].time
    ensures Schedule(events, B) == p.steps + Cover(p.offset, events[|events| - 1].time, B)
  {
    assert events[..|events|] == events;
    SortedOffsetBound(events, B, false);
    RunShape(events, B, false);
  }

  /** The event lists a file renders: all tracks merged into one clip for
      format 0 and 1 files, one clip per track for format 2 files. */
  function Parts(file: MidiFile): seq<seq<TimedEvent>>
  {
    if file.format == MultiSequence then file.tracks else [file.timedEvents]
  }

  /** Every part of the file is in time order. */
  ghost predicate InOrder(file: MidiFile)
  {
    forall t :: 0 <= t < |Parts(file)| ==> Sorted(Parts(file)[t])
  }

  /** One clip per part, each scheduled by `BlockSchedule.Schedule` and as
      long as its part. */
  ghost predicate RenderedParts(file: MidiFile, clips: seq<array<real>>, traces: seq<seq<Step>>)
    reads set t | 0 <= t < |clips| :: clips[t]
  {
    && |clips| == |traces| == |Parts(file)|
    && (forall t :: 0 <= t < |clips| ==>
          clips[t].Length == Channels * Duration(Parts(file)[t]) && traces[t] == Schedule(Parts(file)[t], MaxBlockSize))
  }

  /** Renders a file with the given instruments: one clip for a format 0 or 1
      file, one per track for a format 2 file, all tracks sharing the
      instruments (so a note still sounding at the end of one track carries
      into the next). The instruments are released at the end. */
  method Render(file: MidiFile, router: SfizzArray) returns (clips: seq<array<real>>, ghost traces: seq<seq<Step>>)
    requires router.Valid() && InOrder(file)
    modifies router.Repr
    ensures RenderedParts(file, clips, traces)
    ensures forall c :: 0 <= c < router.sfizzes.Length && router.sfizzes[c] != null ==> !router.sfizzes[c].initialized
  {
    var parts := if file.format == MultiSequence then file.tracks else [file.timedEvents];
    assert parts == Parts(file);
    clips, traces := [], [];
    var t := 0;
    while t < |parts|
      invariant 0 <= t <= |parts|
      invariant router.Valid() && fresh(router.Repr - old(router.Repr))
      invariant |clips| == |traces| == t
      invariant forall u :: 0 <= u < t ==>
        clips[u].Length == Channels * Duration(parts[u]) && traces[u] == Schedule(parts[u], MaxBlockSize)
    {
      var clip, trace, mixes := RenderEvents(parts[t], router);
      clips, traces := clips + [clip], traces + [trace];
      t := t + 1;
    }
    router.Dispose();
  }

  /** Renders a file with one instrument for every channel. */
  method RenderFile(file: MidiFile, sfzPath: string, sampleRate: int, library: Library)
    returns (clips: seq<array<real>>, ghost traces: seq<seq<Step>>)
    requires InOrder(file)
    ensures RenderedParts(file, clips, traces)
  {
    var router := new SfizzArray.Single(sfzPath, sampleRate, library);
    clips, traces := Render(file, router);
  }

  /** Renders a file with one instrument per channel: channel `c` plays
      `sfzPaths[c]`; channels without a file, or whose file does not load, are
      silent. */
  method RenderFileByChannel(file: MidiFile, sfzPaths: seq<string>, sampleRate: int, library: Library)
    returns (clips: seq<array<real>>, ghost traces: seq<seq<Step>>)
    requires InOrder(file)
    ensures RenderedParts(file, clips, traces)
  {
    var router := new SfizzArray(sfzPaths, sampleRate, library);
    clips, traces := Render(file, router);
  }
}
