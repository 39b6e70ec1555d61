/** The native sfizz synthesizer, seen only through the calls the scheduling
    core makes on it (Packages/sfizz-unity/Runtime/Sfizz.cs). What the native
    library loads and what it sounds like are not visible: a `Library` value
    stands for both. */
module SfizzEngine {

  /** The engine's largest block of frames (`Sfizz.MaxBlockSize`). Its value is
      not visible in the wrapper; every schedule lemma holds for any positive
      block size. */
  const MaxBlockSize: nat := 1024

  /** Players and renderers only drive one stereo pair of planar buffers. */
  const Channels: nat := 2

  /** The channel messages the MIDI renderer forwards, one per `Send*` call. */
  datatype ChannelMessage =
    | ChannelAftertouch(value: int)
    | ControlChange(control: int, value: int)
    | NoteAftertouch(note: int, value: int)
    | NoteOff(note: int, velocity: int)
    | NoteOn(note: int, velocity: int)
    | PitchBend(value: int)
    | ProgramChange(program: int)

  /** An event as the engine received it: its delay into the next block, the
      message, and how many frames the engine had rendered when it arrived. */
  datatype Received = Received(delay: int, message: ChannelMessage, at: nat)

  /** What a loaded instrument sounds like: the sample on output channel `j`
      at absolute frame `f`, given every event received so far. */
  type Voice = (seq<Received>, nat, nat) -> real

  /** The instrument files the native library can load, and each one's sound. */
  datatype Library = Library(loads: string -> bool, sound: string -> Voice)

  /** An instance with nothing loaded renders silence. */
  const Silence: Voice := (h: seq<Received>, j: nat, f: nat) => 0.0

  /** One native synthesizer instance. */
  class Sfizz {
    var initialized: bool
    var sampleRate: int
    var samplesPerBlock: int
    var voice: Voice
    var received: seq<Received>
    var rendered: nat

    /** The `n` samples of output channel `j` from absolute frame `from` on. */
    function Output(j: nat, from: nat, n: nat): (s: seq<real>)
      reads this
      ensures |s| == n
      ensures forall f :: 0 <= f < n ==> s[f] == voice(received, j, from + f)
    {
      var v, h := voice, received;
      seq(n, f requires 0 <= f < n => v(h, j, from + f))
    }

    constructor ()
      ensures initialized && voice == Silence && received == [] && rendered == 0
      ensures samplesPerBlock == 0
    {
      initialized := true;
      sampleRate := 0;
      samplesPerBlock := 0;
      voice := Silence;
      received := [];
      rendered := 0;
    }

    /** Loads an instrument file; succeeds exactly when the library can load it. */
    method LoadFile(library: Library, path: string) returns (ok: bool)
      requires initialized
      modifies this
      ensures ok == library.loads(path)
      ensures voice == (if ok then library.sound(path) else old(voice))
      ensures initialized && sampleRate == old(sampleRate) && samplesPerBlock == old(samplesPerBlock)
      ensures received == old(received) && rendered == old(rendered)
    {
      ok := library.loads(path);
      if ok {
        voice := library.sound(path);
      }
    }

    method SetSampleRate(rate: int)
      requires initialized
      modifies this
      ensures sampleRate == rate
      ensures initialized && samplesPerBlock == old(samplesPerBlock) && voice == old(voice)
      ensures received == old(received) && rendered == old(rendered)
    {
      sampleRate := rate;
    }

    method SetSamplesPerBlock(n: int)
      requires initialized
      modifies this
      ensures samplesPerBlock == n
      ensures initialized && sampleRate == old(sampleRate) && voice == old(voice)
      ensures received == old(received) && rendered == old(rendered)
    {
      samplesPerBlock := n;
    }

    /** Queues one channel message `delay` frames into the next block. */
    method Send(delay: int, message: ChannelMessage)
      requires initialized
      modifies this
      ensures received == old(received) + [Received(delay, message, old(rendered))]
      ensures initialized && sampleRate == old(sampleRate) && samplesPerBlock == old(samplesPerBlock)
      ensures voice == old(voice) && rendered == old(rendered)
    {
      received := received + [Received(delay, message, rendered)];
    }

    /** Renders `numFrames` frames into the two planar buffers. The frame
        count must be positive and at most the configured samples per block. */
    method RenderBlock(left: array<real>, right: array<real>, numFrames: int)
      requires initialized && left != right
      requires 0 < numFrames <= samplesPerBlock
      requires numFrames <= left.Length && numFrames <= right.Length
      modifies this, left, right
      ensures rendered == old(rendered) + numFrames
      ensures left[..numFrames] == Output(0, old(rendered), numFrames)
      ensures right[..numFrames] == Output(1, old(rendered), numFrames)
      ensures left[numFrames..] == old(left[numFrames..])
      ensures right[numFrames..] == old(right[numFrames..])
      ensures initialized && sampleRate == old(sampleRate) && samplesPerBlock == old(samplesPerBlock)
      ensures voice == old(voice) && received == old(received)
    {
      var i := 0;
      while i < numFrames
        modifies left, right
        invariant 0 <= i <= numFrames
        invariant forall f :: 0 <= f < i ==> left[f] == voice(received, 0, rendered + f)
        invariant forall f :: 0 <= f < i ==> right[f] == voice(received, 1, rendered + f)
        invariant left[numFrames..] == old(left[numFrames..])
        invariant right[numFrames..] == old(right[numFrames..])
      {
        left[i] := voice(received, 0, rendered + i);
        right[i] := voice(received, 1, rendered + i);
        i := i + 1;
      }
      rendered := rendered + numFrames;
    }

    method Dispose()
      modifies this
      ensures !initialized
      ensures sampleRate == old(sampleRate) && samplesPerBlock == old(samplesPerBlock)
      ensures voice == old(voice) && received == old(received) && rendered == old(rendered)
    {
      if initialized {
        initialized := false;
      }
    }
  }
}
