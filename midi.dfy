/** MIDI input as the renderer consumes it: timed events whose times are
    already converted to output frames. Parsing and the tempo map belong to
    the MIDI library and are not part of this model. */
module Midi {
  import opened SfizzEngine

  /** A channel event carries a channel and a message; every other MIDI event
      (meta, system exclusive) is ignored by the renderer. */
  datatype MidiEvent =
    | ChannelEvent(channel: int, message: ChannelMessage)
    | OtherEvent

  /** An event at an absolute output frame. */
  datatype TimedEvent = TimedEvent(time: nat, event: MidiEvent)

  /** Format 0 and 1 files mix into one clip; format 2 files render one clip per track. */
  datatype FileFormat = SingleTrack | MultiTrack | MultiSequence

  /** `timedEvents` is every track's events merged in time order; `tracks`
      holds each track's own events. */
  datatype MidiFile = MidiFile(format: FileFormat, timedEvents: seq<TimedEvent>, tracks: seq<seq<TimedEvent>>)

  /** Times never decrease along the sequence, as the MIDI library delivers them. */
  ghost predicate Sorted(events: seq<TimedEvent>)
  {
    forall i, j :: 0 <= i < j < |events| ==> events[i].time <= events[j].time
  }

  /** The clip length in frames: the time of the last event, 0 when there is none. */
  function Duration(events: seq<TimedEvent>): nat
  {
    if events == [] then 0 else events[|events| - 1].time
  }

  /** The channel events of `events`, in their order. */
  function ChannelEventsOf(events: seq<TimedEvent>): seq<TimedEvent>
  {
    if events == [] then []
    else
      var last := events[|events| - 1];
      ChannelEventsOf(events[..|events| - 1]) + (if last.event.ChannelEvent? then [last] else [])
  }
}
