/** The block schedule of the offline MIDI renderer
    (Packages/sfizz-unity/Runtime/SfizzMidiRenderer.cs, RenderEvents), as pure
    functions over the event list: which blocks are rendered where, and at
    which delay each channel event is handed to its instrument.

    `offset` is the first frame not yet written to the clip. Before each
    channel event, full blocks of `B` frames are rendered while the event lies
    beyond the current block; the source's guard is `time > offset + B`
    (`strict`), the corrected guard is `time >= offset + B`. */
module BlockSchedule {
  import opened SfizzEngine
  import opened Midi
  import opened Arith

  /** One action of the renderer: a block of `size` frames written at frame
      `start`, or a channel event handed to the router `delay` frames into
      the block about to be rendered. */
  datatype Step =
    | Block(start: int, size: int)
    | Route(time: nat, channel: int, delay: int, message: ChannelMessage)

  /** The renderer's state between events. */
  datatype Progress = Progress(offset: nat, steps: seq<Step>)

  /** `k` consecutive full blocks starting at frame `from`. */
  function FullBlocks(from: int, k: nat, B: nat): (s: seq<Step>)
    ensures |s| == k
    decreases k
  {
    if k == 0 then [] else [Block(from, B)] + FullBlocks(from + B, k - 1, B)
  }

  /** The block steps of `steps`, in order. */
  function Blocks(steps: seq<Step>): seq<Step>
  {
    if steps == [] then []
    else
      var last := steps[|steps| - 1];
      Blocks(steps[..|steps| - 1]) + (if last.Block? then [last] else [])
  }

  /** The events handed to the router, in order. */
  function Routed(steps: seq<Step>): seq<TimedEvent>
  {
    if steps == [] then []
    else
      var last := steps[|steps| - 1];
      Routed(steps[..|steps| - 1])
        + (if last.Route? then [TimedEvent(last.time, ChannelEvent(last.channel, last.message))] else [])
  }

  /** `blocks` write `[from, to)` exactly once, in order, each block holding
      between 1 and `B` frames: the reference definition of a valid clip. */
  predicate Tiling(blocks: seq<Step>, from: int, to: int, B: nat)
    decreases |blocks|
  {
    if blocks == [] then from == to
    else
      && blocks[0].Block?
      && blocks[0].start == from
      && 0 < blocks[0].size <= B
      && Tiling(blocks[1..], from + blocks[0].size, to, B)
  }

  /** Full blocks from `from` up to `total`, then the non-empty remainder. */
  function Cover(from: int, total: int, B: nat): seq<Step>
    requires B > 0
    decreases total - from
  {
    if total <= from then []
    else if total - from <= B then [Block(from, total - from)]
    else [Block(from, B)] + Cover(from + B, total, B)
  }

  /** How many full blocks the renderer writes before dispatching an event
      `d` frames past `offset`: while `d > B` as written (`strict`), while
      `d >= B` once corrected. */
  function BlocksToSkip(d: nat, B: nat, strict: bool): nat
    requires B > 0
  {
    if !strict then d / B
    else if d == 0 then 0
    else (d - 1) / B
  }

  /** One event through the renderer: non-channel events and events before
      `offset` are dropped; a channel event first advances `offset` block by
      block, then is routed with delay `time % B`. */
  function Process(p: Progress, e: TimedEvent, B: nat, strict: bool): Progress
    requires B > 0
  {
    match e.event
    case OtherEvent => p
    case ChannelEvent(channel, message) =>
      if e.time < p.offset then p
      else
        var k := BlocksToSkip(e.time - p.offset, B, strict);
        Progress(p.offset + k * B,
                 p.steps + FullBlocks(p.offset, k, B) + [Route(e.time, channel, e.time % B, message)])
  }

  /** All events through the renderer, first to last, starting at offset 0. */
  function Run(events: seq<TimedEvent>, B: nat, strict: bool): Progress
    requires B > 0
  {
    if events == [] then Progress(0, [])
    else Process(Run(events[..|events| - 1], B, strict), events[|events| - 1], B, strict)
  }

  /** The renderer as written: after the last event, one final block of
      `Duration(events) - offset` frames, whatever its size. */
  function ScheduleAsWritten(events: seq<TimedEvent>, B: nat): seq<Step>
    requires B > 0
  {
    if events == [] then []
    else
      var p := Run(events, B, true);
      p.steps + [Block(p.offset, Duration(events) - p.offset)]
  }

  /** The corrected renderer: inclusive guard, then the tail as full blocks and
      one non-empty remainder. */
  function Schedule(events: seq<TimedEvent>, B: nat): seq<Step>
    requires B > 0
  {
    if events == [] then []
    else
      var p := Run(events, B, false);
      p.steps + Cover(p.offset, Duration(events), B)
  }

  // ---------------------------------------------------------------------------
  // Sequence helpers

  lemma {:induction false} BlocksAppend(a: seq<Step>, b: seq<Step>)
    ensures Blocks(a + b) == Blocks(a) + Blocks(b)
    ensures Routed(a + b) == Routed(a) + Routed(b)
    decreases |b|
  {
    if b != [] {
      var b' := b[..|b| - 1];
      assert (a + b)[..|a + b| - 1] == a + b';
      assert (a + b)[|a + b| - 1] == b[|b| - 1];
      BlocksAppend(a, b');
    } else {
      assert a + b == a;
    }
  }

  lemma SingleStep(b: Step)
    ensures Blocks([b]) == if b.Block? then [b] else []
    ensures Routed([b]) == if b.Route? then [TimedEvent(b.time, ChannelEvent(b.channel, b.message))] else []
  {
    assert [b][..0] == [];
  }

  /** A block in front of block-only steps keeps them block-only. */
  lemma ConsBlock(b: Step, rest: seq<Step>)
    requires b.Block? && Blocks(rest) == rest && Routed(rest) == []
    ensures Blocks([b] + rest) == [b] + rest && Routed([b] + rest) == []
  {
    BlocksAppend([b], rest);
    SingleStep(b);
  }

  lemma {:induction false} FullBlocksAreBlocks(from: int, k: nat, B: nat)
    ensures Blocks(FullBlocks(from, k, B)) == FullBlocks(from, k, B)
    ensures Routed(FullBlocks(from, k, B)) == []
    ensures forall i :: 0 <= i < k ==> FullBlocks(from, k, B)[i].Block?
    decreases k
  {
    if k > 0 {
      var rest := FullBlocks(from + B, k - 1, B);
      FullBlocksAreBlocks(from + B, k - 1, B);
      ConsBlock(Block(from, B), rest);
      assert FullBlocks(from, k, B) == [Block(from, B)] + rest;
    } else {
      assert FullBlocks(from, k, B) == [];
    }
  }

  lemma {:induction false} CoverAreBlocks(from: int, total: int, B: nat)
    requires B > 0
    ensures Blocks(Cover(from, total, B)) == Cover(from, total, B)
    ensures Routed(Cover(from, total, B)) == []
    decreases total - from
  {
    if total <= from {
      assert Cover(from, total, B) == [];
    } else if total - from <= B {
      ConsBlock(Block(from, total - from), []);
      assert Cover(from, total, B) == [Block(from, total - from)] + [];
    } else {
      var rest := Cover(from + B, total, B);
      CoverAreBlocks(from + B, total, B);
      ConsBlock(Block(from, B), rest);
      assert Cover(from, total, B) == [Block(from, B)] + rest;
    }
  }

  lemma {:induction false} FullBlocksAppend(from: int, m: nat, k: nat, B: nat)
    ensures FullBlocks(from, m, B) + FullBlocks(from + m * B, k, B) == FullBlocks(from, m + k, B)
    decreases m
  {
    if m > 0 {
      assert from + B + (m - 1) * B == from + m * B;
      FullBlocksAppend(from + B, m - 1, k, B);
    }
  }

  // ---------------------------------------------------------------------------
  // Properties of the block schedule

  /** The tail rendering tiles what is left of the clip. */
  lemma {:induction false} CoverTiles(from: int, total: int, B: nat)
    requires B > 0 && from <= total
    ensures Tiling(Cover(from, total, B), from, total, B)
    decreases total - from
  {
    if total - from > B {
      CoverTiles(from + B, total, B);
    }
  }

  /** Full blocks up to the offset, followed by the tail, are the tail
      rendering of the whole clip. */
  lemma {:induction false} CoverSplit(from: int, k: nat, to: int, total: int, B: nat)
    requires B > 0 && to == from + k * B && to <= total
    ensures FullBlocks(from, k, B) + Cover(to, total, B) == Cover(from, total, B)
    decreases k
  {
    if k > 0 {
      NextBlockEnd(from, k, to, total, B);
      var rest := FullBlocks(from + B, k - 1, B);
      CoverSplit(from + B, k - 1, to, total, B);
      CoverStep(from, total, B);
      ConsAppend(Block(from, B), rest, Cover(to, total, B), Cover(from + B, total, B));
      assert FullBlocks(from, k, B) == [Block(from, B)] + rest;
    } else {
      assert FullBlocks(from, k, B) == [];
    }
  }

  lemma ConsAppend(b: Step, rest: seq<Step>, tail: seq<Step>, whole: seq<Step>)
    requires rest + tail == whole
    ensures ([b] + rest) + tail == [b] + whole
  {
  }

  lemma NextBlockEnd(from: int, k: nat, to: int, total: int, B: nat)
    requires B > 0 && k > 0 && to == from + k * B && to <= total
    ensures to == (from + B) + (k - 1) * B && from + B <= total
  {
    MulMono(0, k - 1, B);
  }

  /** Moving the tail's first full block onto the steps before it. */
  lemma CoverAdvance(steps: seq<Step>, from: int, total: int, B: nat)
    requires B > 0 && from + B < total
    ensures (steps + [Block(from, B)]) + Cover(from + B, total, B) == steps + Cover(from, total, B)
  {
    CoverStep(from, total, B);
    assert (steps + [Block(from, B)]) + Cover(from + B, total, B) == steps + ([Block(from, B)] + Cover(from + B, total, B));
  }

  /** At most one block from the end, the tail is one block. */
  lemma CoverLast(from: int, total: int, B: nat)
    requires B > 0 && from < total <= from + B
    ensures Cover(from, total, B) == [Block(from, total - from)]
  {
  }

  /** At least one block from the end, the tail starts with a full block. */
  lemma CoverStep(from: int, total: int, B: nat)
    requires B > 0 && from + B <= total
    ensures Cover(from, total, B) == [Block(from, B)] + Cover(from + B, total, B)
  {
    if total - from == B {
      assert Cover(from + B, total, B) == [];
    }
  }

  /** One event keeps the blocks written so far consecutive full blocks from
      frame 0 up to `offset`. */
  lemma ProcessShape(q: Progress, e: TimedEvent, B: nat, strict: bool, c: nat)
    requires B > 0
    requires q.offset == c * B && Blocks(q.steps) == FullBlocks(0, c, B)
    ensures var p := Process(q, e, B, strict);
      && p.offset == |Blocks(p.steps)| * B
      && Blocks(p.steps) == FullBlocks(0, |Blocks(p.steps)|, B)
  {
    if e.event.ChannelEvent? && e.time >= q.offset {
      var k := BlocksToSkip(e.time - q.offset, B, strict);
      MulAdd(c, k, B);
      var route := Route(e.time, e.event.channel, e.time % B, e.event.message);
      assert Process(q, e, B, strict) == Progress(q.offset + k * B, q.steps + FullBlocks(q.offset, k, B) + [route]);
      BlocksThenRoute(q.steps, c, k, B, route);
    }
  }

  /** Full blocks and then a routed event, after `c` full blocks from frame 0,
      make `c + k` full blocks from frame 0. */
  lemma BlocksThenRoute(steps: seq<Step>, c: nat, k: nat, B: nat, route: Step)
    requires Blocks(steps) == FullBlocks(0, c, B) && route.Route?
    ensures Blocks(steps + FullBlocks(c * B, k, B) + [route]) == FullBlocks(0, c + k, B)
  {
    var fb := FullBlocks(c * B, k, B);
    BlocksAppend(steps, fb);
    AppendStep(steps + fb, route);
    FullBlocksAreBlocks(c * B, k, B);
    FullBlocksAppend(0, c, k, B);
    assert 0 + c * B == c * B;
  }

  /** `offset` starts at 0 and only grows by whole blocks: the blocks written
      so far are consecutive full blocks from frame 0 up to `offset`. */
  lemma {:induction false} RunShape(events: seq<TimedEvent>, B: nat, strict: bool)
    requires B > 0
    ensures var p := Run(events, B, strict);
      && p.offset == |Blocks(p.steps)| * B
      && Blocks(p.steps) == FullBlocks(0, |Blocks(p.steps)|, B)
    decreases |events|
  {
    if events != [] {
      var pre := events[..|events| - 1];
      RunShape(pre, B, strict);
      var q := Run(pre, B, strict);
      ProcessShape(q, events[|events| - 1], B, strict, |Blocks(q.steps)|);
    } else {
      assert Blocks([]) == [];
    }
  }

  /** The blocks skipped before an event never pass it. */
  lemma SkipFits(d: nat, B: nat, strict: bool)
    requires B > 0
    ensures BlocksToSkip(d, B, strict) * B <= d
  {
    if !strict {
      assert d == (d / B) * B + d % B;
    } else if d > 0 {
      assert d - 1 == ((d - 1) / B) * B + (d - 1) % B;
    }
  }

  /** Whatever the order of the events, `offset` never passes an event time. */
  lemma {:induction false} RunOffsetBound(events: seq<TimedEvent>, t: int, B: nat, strict: bool)
    requires B > 0 && events != []
    requires forall i :: 0 <= i < |events| ==> events[i].time <= t
    ensures Run(events, B, strict).offset <= t
    decreases |events|
  {
    var pre := events[..|events| - 1];
    var e := events[|events| - 1];
    if pre != [] {
      assert forall i :: 0 <= i < |pre| ==> pre[i] == events[i];
      RunOffsetBound(pre, t, B, strict);
    } else {
      assert Run(pre, B, strict).offset == 0;
    }
    var q := Run(pre, B, strict);
    assert Run(events, B, strict) == Process(q, e, B, strict);
    if e.event.ChannelEvent? && e.time >= q.offset {
      SkipFits(e.time - q.offset, B, strict);
    }
  }

  /** On time-ordered input `offset` never passes the clip's end. */
  lemma SortedOffsetBound(events: seq<TimedEvent>, B: nat, strict: bool)
    requires B > 0 && Sorted(events) && events != []
    ensures Run(events, B, strict).offset <= Duration(events)
  {
    RunOffsetBound(events, Duration(events), B, strict);
  }

  /** Where a routed event lands: `start` is the first frame of the block it
      is rendered with. The delay lies inside the block and equals the event's
      distance from `start`; the guard as written (`strict`) also lets through
      an event exactly `B` frames past `start`, sent at delay 0. */
  ghost predicate DelayOk(time: int, start: int, delay: int, B: nat, strict: bool)
  {
    && 0 <= delay < B
    && (time - start == delay || (strict && time - start == B && delay == 0))
  }

  /** Every routed event of `s` is `DelayOk` for the block that starts after
      the blocks written before it. */
  ghost predicate Dispatched(s: seq<Step>, B: nat, strict: bool)
  {
    forall m :: 0 <= m < |s| && s[m].Route? ==> DelayOk(s[m].time, |Blocks(s[..m])| * B, s[m].delay, B, strict)
  }

  lemma DispatchedAppend(a: seq<Step>, fb: seq<Step>, tail: seq<Step>, B: nat, strict: bool)
    requires Dispatched(a, B, strict)
    requires forall i :: 0 <= i < |fb| ==> fb[i].Block?
    requires |tail| <= 1
    requires forall i :: 0 <= i < |tail| ==>
      tail[i].Route? && DelayOk(tail[i].time, |Blocks(a + fb)| * B, tail[i].delay, B, strict)
    ensures Dispatched(a + fb + tail, B, strict)
  {
    var s := a + fb + tail;
    forall m | 0 <= m < |s| && s[m].Route?
      ensures DelayOk(s[m].time, |Blocks(s[..m])| * B, s[m].delay, B, strict)
    {
      if m < |a| {
        assert s[..m] == a[..m];
        assert s[m] == a[m];
      } else if m >= |a| + |fb| {
        assert s[..m] == a + fb;
        assert s[m] == tail[0];
      }
    }
  }

  /** An event `d = time - c * B` frames past the offset `c * B` is sent with
      delay `time % B` into the block after the skipped ones. */
  lemma LandsInBlock(time: int, c: nat, B: nat, strict: bool)
    requires B > 0 && time >= c * B
    ensures var k := BlocksToSkip(time - c * B, B, strict);
      && DelayOk(time, (c + k) * B, time % B, B, strict)
      && (c + k) * B <= time
  {
    var d := time - c * B;
    var k := BlocksToSkip(d, B, strict);
    MulAdd(c, k, B);
    if !strict {
      assert d == k * B + d % B;
      DivModUnique(time, c + k, d % B, B);
    } else if d == 0 {
      DivModUnique(time, c, 0, B);
    } else {
      assert d - 1 == k * B + (d - 1) % B;
      var r := (d - 1) % B + 1;
      assert time == (c + k) * B + r;
      if r < B {
        DivModUnique(time, c + k, r, B);
      } else {
        MulAdd(c + k, 1, B);
        DivModUnique(time, c + k + 1, 0, B);
      }
    }
  }

  lemma ProcessDispatched(q: Progress, e: TimedEvent, B: nat, strict: bool)
    requires B > 0 && Dispatched(q.steps, B, strict) && q.offset == |Blocks(q.steps)| * B
    ensures Dispatched(Process(q, e, B, strict).steps, B, strict)
  {
    if e.event.ChannelEvent? && e.time >= q.offset {
      var c := |Blocks(q.steps)|;
      var k := BlocksToSkip(e.time - q.offset, B, strict);
      var fb := FullBlocks(q.offset, k, B);
      var route := Route(e.time, e.event.channel, e.time % B, e.event.message);
      FullBlocksAreBlocks(q.offset, k, B);
      BlocksAppend(q.steps, fb);
      assert |Blocks(q.steps + fb)| == c + k;
      LandsInBlock(e.time, c, B, strict);
      DispatchedAppend(q.steps, fb, [route], B, strict);
      assert Process(q, e, B, strict).steps == q.steps + fb + [route];
    }
  }

  /** Every routed event's delay lies in `[0, B)` and places it at its own
      time in the block it is rendered with; with the guard as written
      (`strict`), an event exactly one block past the offset is the
      exception, sent at delay 0 of the block that starts `B` frames before
      it. */
  lemma {:induction false} RunDispatched(events: seq<TimedEvent>, B: nat, strict: bool)
    requires B > 0
    ensures Dispatched(Run(events, B, strict).steps, B, strict)
    decreases |events|
  {
    if events != [] {
      var pre := events[..|events| - 1];
      RunDispatched(pre, B, strict);
      RunShape(pre, B, strict);
      ProcessDispatched(Run(pre, B, strict), events[|events| - 1], B, strict);
    }
  }

  lemma ProcessRoutes(q: Progress, e: TimedEvent, B: nat, strict: bool)
    requires B > 0
    requires e.event.ChannelEvent? ==> e.time >= q.offset
    ensures Routed(Process(q, e, B, strict).steps)
         == Routed(q.steps) + (if e.event.ChannelEvent? then [e] else [])
  {
    if e.event.ChannelEvent? {
      var k := BlocksToSkip(e.time - q.offset, B, strict);
      var fb := FullBlocks(q.offset, k, B);
      var route := Route(e.time, e.event.channel, e.time % B, e.event.message);
      assert Process(q, e, B, strict).steps == q.steps + fb + [route];
      BlocksAppend(q.steps, fb);
      BlocksAppend(q.steps + fb, [route]);
      FullBlocksAreBlocks(q.offset, k, B);
      assert Routed([route]) == [e] by {
        assert [route][..0] == [];
      }
    }
  }

  /** On time-ordered input no channel event is dropped or reordered: the
      events handed to the router are exactly the channel events, in input
      order, at their own times. */
  lemma {:induction false} RunRoutesChannelEvents(events: seq<TimedEvent>, B: nat, strict: bool)
    requires B > 0 && Sorted(events)
    ensures Routed(Run(events, B, strict).steps) == ChannelEventsOf(events)
    decreases |events|
  {
    if events != [] {
      var pre := events[..|events| - 1];
      var e := events[|events| - 1];
      assert Sorted(pre);
      RunRoutesChannelEvents(pre, B, strict);
      if pre != [] {
        assert forall i :: 0 <= i < |pre| ==> pre[i].time <= e.time;
        RunOffsetBound(pre, e.time, B, strict);
      }
      ProcessRoutes(Run(pre, B, strict), e, B, strict);
    } else {
      assert Routed([]) == [];
    }
  }

  /** The corrected schedule tiles the whole clip `[0, Duration(events))`:
      every block is non-empty, at most `B` frames, and follows the previous
      one; so no full block reaches past the clip and no empty block is
      rendered. */
  lemma ScheduleTiles(events: seq<TimedEvent>, B: nat)
    requires B > 0 && Sorted(events)
    ensures Tiling(Blocks(Schedule(events, B)), 0, Duration(events), B)
  {
    if events != [] {
      var p := Run(events, B, false);
      var total := Duration(events);
      RunShape(events, B, false);
      RunOffsetBound(events, total, B, false);
      var c := |Blocks(p.steps)|;
      var tail := Cover(p.offset, total, B);
      assert Schedule(events, B) == p.steps + tail;
      BlocksAppend(p.steps, tail);
      CoverAreBlocks(p.offset, total, B);
      CoverSplit(0, c, p.offset, total, B);
      assert Blocks(Schedule(events, B)) == FullBlocks(0, c, B) + tail;
      CoverTiles(0, total, B);
    } else {
      assert Blocks([]) == [];
    }
  }

  /** The corrected schedule routes exactly the channel events, in order, each
      at a delay in `[0, B)` that places it at its own time in its block. */
  lemma ScheduleDispatches(events: seq<TimedEvent>, B: nat)
    requires B > 0 && Sorted(events)
    ensures Routed(Schedule(events, B)) == ChannelEventsOf(events)
    ensures Dispatched(Schedule(events, B), B, false)
  {
    if events != [] {
      var p := Run(events, B, false);
      var tail := Cover(p.offset, Duration(events), B);
      RunRoutesChannelEvents(events, B, false);
      RunDispatched(events, B, false);
      BlocksAppend(p.steps, tail);
      CoverAreBlocks(p.offset, Duration(events), B);
      CoverAllBlocks(p.offset, Duration(events), B);
      DispatchedAppend(p.steps, tail, [], B, false);
      assert p.steps + tail + [] == Schedule(events, B);
    } else {
      assert Routed([]) == [];
    }
  }

  lemma {:induction false} CoverAllBlocks(from: int, total: int, B: nat)
    requires B > 0
    ensures forall i :: 0 <= i < |Cover(from, total, B)| ==> Cover(from, total, B)[i].Block?
    decreases total - from
  {
    if total - from > B {
      CoverAllBlocks(from + B, total, B);
    }
  }

  /** As written, when the last event is a channel event the final block is
      what is left after the full blocks, between 0 and `B` frames. */
  lemma AsWrittenFinalBlock(events: seq<TimedEvent>, B: nat)
    requires B > 0 && Sorted(events) && events != []
    requires events[|events| - 1].event.ChannelEvent?
    ensures Blocks(ScheduleAsWritten(events, B))
         == FullBlocks(0, |Blocks(Run(events, B, true).steps)|, B)
          + [Block(Run(events, B, true).offset, Duration(events) - Run(events, B, true).offset)]
    ensures 0 <= Duration(events) - Run(events, B, true).offset <= B
  {
    AsWrittenBlocks(events, B);
    AsWrittenLastLands(events, B);
  }

  /** As written, the blocks are full blocks from frame 0 up to the offset,
      then the final block. */
  lemma AsWrittenBlocks(events: seq<TimedEvent>, B: nat)
    requires B > 0 && events != []
    ensures var p := Run(events, B, true);
      Blocks(ScheduleAsWritten(events, B))
        == FullBlocks(0, |Blocks(p.steps)|, B) + [Block(p.offset, Duration(events) - p.offset)]
  {
    var p := Run(events, B, true);
    var last := Block(p.offset, Duration(events) - p.offset);
    assert Blocks(p.steps) == FullBlocks(0, |Blocks(p.steps)|, B) by {
      RunBlocks(events, B, true);
    }
    FinalBlockAfter(p, Duration(events), B);
    assert ScheduleAsWritten(events, B) == p.steps + [last];
  }

  /** A final block at the offset, after full blocks from frame 0. */
  lemma FinalBlockAfter(p: Progress, total: int, B: nat)
    requires Blocks(p.steps) == FullBlocks(0, |Blocks(p.steps)|, B)
    ensures Blocks(p.steps + [Block(p.offset, total - p.offset)])
         == FullBlocks(0, |Blocks(p.steps)|, B) + [Block(p.offset, total - p.offset)]
  {
    AppendStep(p.steps, Block(p.offset, total - p.offset));
  }

  lemma RunBlocks(events: seq<TimedEvent>, B: nat, strict: bool)
    requires B > 0
    ensures var p := Run(events, B, strict);
      Blocks(p.steps) == FullBlocks(0, |Blocks(p.steps)|, B)
  {
    RunShape(events, B, strict);
  }

  lemma AppendStep(s: seq<Step>, b: Step)
    ensures Blocks(s + [b]) == Blocks(s) + (if b.Block? then [b] else [])
    ensures Routed(s + [b]) == Routed(s) + (if b.Route? then [TimedEvent(b.time, ChannelEvent(b.channel, b.message))] else [])
  {
    BlocksAppend(s, [b]);
    SingleStep(b);
  }

  /** As written, a channel event at the end of the input leaves at most `B`
      frames between the offset and its time. */
  lemma AsWrittenLastLands(events: seq<TimedEvent>, B: nat)
    requires B > 0 && Sorted(events) && events != []
    requires events[|events| - 1].event.ChannelEvent?
    ensures 0 <= events[|events| - 1].time - Run(events, B, true).offset <= B
    ensures Duration(events) == events[|events| - 1].time
  {
    var pre := events[..|events| - 1];
    var e := events[|events| - 1];
    var q := Run(pre, B, true);
    assert Run(events, B, true) == Process(q, e, B, true);
    RunShape(pre, B, true);
    if pre != [] {
      assert forall i :: 0 <= i < |pre| ==> pre[i].time <= e.time;
      RunOffsetBound(pre, e.time, B, true);
    }
    var cq := |Blocks(q.steps)|;
    LandsInBlock(e.time, cq, B, true);
    var k := BlocksToSkip(e.time - q.offset, B, true);
    MulAdd(cq, k, B);
  }

  // ---------------------------------------------------------------------------
  // Inputs on which the renderer as written misbehaves

  /** An event exactly one block past `offset` is sent at delay 0, into the
      block that starts `B` frames before it; the corrected guard first renders
      that block and then sends it at delay 0 of the next one. */
  lemma EarlyDispatchAsWritten(B: nat)
    requires B > 0
    ensures var e := TimedEvent(B, ChannelEvent(0, NoteOn(60, 100)));
      && Run([e], B, true).steps == [Route(B, 0, 0, NoteOn(60, 100))]
      && Run([e], B, false).steps == [Block(0, B), Route(B, 0, 0, NoteOn(60, 100))]
  {
    var e := TimedEvent(B, ChannelEvent(0, NoteOn(60, 100)));
    assert [e][..0] == [];
    assert (B - 1) / B == 0;
    DivModUnique(B, 1, 0, B);
    assert FullBlocks(0, 1, B) == [Block(0, B)];
  }

  /** A single event at frame 0: the renderer as written asks for a final
      block of 0 frames; the corrected tail renders nothing. */
  lemma EmptyFinalBlockAsWritten(B: nat)
    requires B > 0
    ensures var e := TimedEvent(0, ChannelEvent(0, NoteOn(60, 100)));
      && ScheduleAsWritten([e], B) == [Route(0, 0, 0, NoteOn(60, 100)), Block(0, 0)]
      && Schedule([e], B) == [Route(0, 0, 0, NoteOn(60, 100))]
  {
    var e := TimedEvent(0, ChannelEvent(0, NoteOn(60, 100)));
    var route := Route(0, 0, 0, NoteOn(60, 100));
    assert [e][..0] == [];
    assert 0 % B == 0 && 0 / B == 0;
    assert FullBlocks(0, 0, B) == [];
    assert Run([e], B, true) == Process(Progress(0, []), e, B, true) == Progress(0, [route]);
    assert Run([e], B, false) == Process(Progress(0, []), e, B, false) == Progress(0, [route]);
    assert Cover(0, 0, B) == [];
  }

  /** A trailing non-channel event three blocks after the last note: the
      renderer as written asks for one final block of `3 * B` frames, more
      than the engine's block size; the corrected tail renders three full
      blocks. */
  lemma OversizedFinalBlockAsWritten(B: nat)
    requires B > 0
    ensures var es := [TimedEvent(0, ChannelEvent(0, NoteOn(60, 100))), TimedEvent(3 * B, OtherEvent)];
      && ScheduleAsWritten(es, B) == [Route(0, 0, 0, NoteOn(60, 100)), Block(0, 3 * B)]
      && Schedule(es, B) == [Route(0, 0, 0, NoteOn(60, 100)), Block(0, B), Block(B, B), Block(2 * B, B)]
  {
    var e0 := TimedEvent(0, ChannelEvent(0, NoteOn(60, 100)));
    var es := [e0, TimedEvent(3 * B, OtherEvent)];
    var route := Route(0, 0, 0, NoteOn(60, 100));
    assert es[..1] == [e0];
    assert [e0][..0] == [];
    assert 0 % B == 0 && 0 / B == 0;
    assert FullBlocks(0, 0, B) == [];
    assert Run([e0], B, true) == Progress(0, [route]);
    assert Run([e0], B, false) == Progress(0, [route]);
    assert Run(es, B, true) == Progress(0, [route]);
    assert Run(es, B, false) == Progress(0, [route]);
    assert Duration(es) == 3 * B;
    assert Cover(2 * B, 3 * B, B) == [Block(2 * B, B)];
    assert Cover(B, 3 * B, B) == [Block(B, B), Block(2 * B, B)];
  }
}
