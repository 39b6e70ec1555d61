/** The per-channel instruments of the offline renderer
    (Packages/sfizz-unity/Runtime/SfizzMidiRenderer.cs, SfizzArray): one slot
    per instrument file, each created on first use, with a failed load never
    retried. In singular mode one instrument serves every channel. */
module Instruments {
  import opened SfizzEngine

  class SfizzArray {
    const sfizzes: array<Sfizz?>
    const loadAttempted: array<bool>
    const sfzPaths: seq<string>
    const singular: bool
    const sampleRate: int
    /** The instrument files the native library can load, and their sound. */
    const library: Library
    /** The slots whose file has been loaded so far, in order. */
    ghost var loads: seq<int>
    ghost var Repr: set<object>

    /** The live instruments. */
    ghost function Synths(): set<Sfizz>
      reads this, sfizzes
    {
      set c | 0 <= c < sfizzes.Length && sfizzes[c] != null :: sfizzes[c]
    }

    /** `s` is ready to play slot `c`: created, tuned to the clip's sample
        rate and block size, and sounding like the slot's file. */
    ghost predicate Plays(s: Sfizz, c: int)
      reads s
      requires 0 <= c < |sfzPaths|
    {
      && s.initialized
      && s.sampleRate == sampleRate
      && s.samplesPerBlock == MaxBlockSize
      && s.voice == library.sound(sfzPaths[c])
    }

    ghost predicate Valid()
      reads this, Repr
    {
      && this in Repr && sfizzes in Repr && loadAttempted in Repr
      && sfizzes.Length == loadAttempted.Length == |sfzPaths|
      && (singular ==> |sfzPaths| == 1)
      && Synths() <= Repr
      && (forall c :: 0 <= c < sfizzes.Length && sfizzes[c] != null ==> Plays(sfizzes[c], c))
      && (forall c :: 0 <= c < sfizzes.Length && !loadAttempted[c] ==> sfizzes[c] == null)
      && (forall c :: 0 <= c < sfizzes.Length && loadAttempted[c] ==>
            (sfizzes[c] != null <==> library.loads(sfzPaths[c])))
      && (forall c, d :: 0 <= c < d < sfizzes.Length && sfizzes[c] != null ==> sfizzes[c] != sfizzes[d])
      && (forall c :: 0 <= c < sfizzes.Length ==> (loadAttempted[c] <==> c in loads))
      && (forall i, j :: 0 <= i < j < |loads| ==> loads[i] != loads[j])
    }

    function Length(): int
      reads this
    {
      sfizzes.Length
    }

    /** The slot a channel resolves to. */
    function Slot(channel: int): int
      reads this
    {
      if singular then 0 else channel
    }

    /** One slot per file, nothing loaded yet. */
    constructor (paths: seq<string>, sampleRate: int, library: Library)
      ensures Valid() && fresh(Repr)
      ensures sfzPaths == paths && !singular && this.sampleRate == sampleRate && this.library == library
      ensures forall c :: 0 <= c < |paths| ==> sfizzes[c] == null && !loadAttempted[c]
      ensures loads == []
    {
      sfzPaths := paths;
      sfizzes := new Sfizz?[|paths|](_ => null);
      loadAttempted := new bool[|paths|](_ => false);
      singular := false;
      this.sampleRate := sampleRate;
      this.library := library;
      loads := [];
      new;
      Repr := {this, sfizzes, loadAttempted};
    }

    /** One slot for one file, serving every channel. */
    constructor Single(path: string, sampleRate: int, library: Library)
      ensures Valid() && fresh(Repr)
      ensures sfzPaths == [path] && singular && this.sampleRate == sampleRate && this.library == library
      ensures sfizzes[0] == null && !loadAttempted[0]
      ensures loads == []
    {
      sfzPaths := [path];
      sfizzes := new Sfizz?[1](_ => null);
      loadAttempted := new bool[1](_ => false);
      singular := true;
      this.sampleRate := sampleRate;
      this.library := library;
      loads := [];
      new;
      Repr := {this, sfizzes, loadAttempted};
    }

    /** The instrument of slot `c`, loading its file on the first request.
        Out of range: null, and nothing changes. A slot already attempted
        keeps what it has: the same instance, or null for good after a failed
        load. Otherwise the load is attempted exactly once here, and its
        outcome decides the slot. */
    method GetSfizz(c: int) returns (s: Sfizz?)
      requires Valid()
      modifies this, sfizzes, loadAttempted
      ensures Valid() && fresh(Repr - old(Repr))
      ensures s != null <==> 0 <= c < sfizzes.Length && library.loads(sfzPaths[c])
      ensures s != null ==> Plays(s, c)
      ensures forall d :: 0 <= d < sfizzes.Length && d != c ==>
        sfizzes[d] == old(sfizzes[d]) && loadAttempted[d] == old(loadAttempted[d])
      ensures !(0 <= c < sfizzes.Length) ==> loads == old(loads)
      ensures 0 <= c < sfizzes.Length ==> s == sfizzes[c] && loadAttempted[c]
      ensures 0 <= c < sfizzes.Length && old(loadAttempted[c]) ==> s == old(sfizzes[c]) && loads == old(loads)
      ensures 0 <= c < sfizzes.Length && !old(loadAttempted[c]) ==>
        loads == old(loads) + [c] && (s != null ==> fresh(s) && s.received == [] && s.rendered == 0)
    {
      s := null;
      if 0 <= c < sfizzes.Length {
        s := sfizzes[c];
        if s == null && !loadAttempted[c] {
          loadAttempted[c] := true;
          loads := loads + [c];
          s := Open(sfzPaths[c]);
          if s != null {
            sfizzes[c] := s;
            Repr := Repr + {s};
          }
        }
      }
    }

    /** A new instrument for `path`, tuned to the clip; null, once released,
        when the library cannot load the file. */
    method Open(path: string) returns (s: Sfizz?)
      ensures s != null <==> library.loads(path)
      ensures s != null ==> fresh(s) && s.initialized && s.voice == library.sound(path)
      ensures s != null ==> s.sampleRate == sampleRate && s.samplesPerBlock == MaxBlockSize
      ensures s != null ==> s.received == [] && s.rendered == 0
    {
      var candidate := new Sfizz();
      var ok := candidate.LoadFile(library, path);
      if ok {
        candidate.SetSampleRate(sampleRate);
        candidate.SetSamplesPerBlock(MaxBlockSize);
        s := candidate;
      } else {
        candidate.Dispose();
        s := null;
      }
    }

    /** The instrument for `channel` (the indexer): slot 0 in singular mode,
        the channel's own slot otherwise. */
    method Get(channel: int) returns (s: Sfizz?)
      requires Valid()
      modifies this, sfizzes, loadAttempted
      ensures Valid() && fresh(Repr - old(Repr))
      ensures var c := Slot(channel);
        && (s != null <==> 0 <= c < sfizzes.Length && library.loads(sfzPaths[c]))
        && (s != null ==> Plays(s, c))
        && (forall d :: 0 <= d < sfizzes.Length && d != c ==>
              sfizzes[d] == old(sfizzes[d]) && loadAttempted[d] == old(loadAttempted[d]))
        && (!(0 <= c < sfizzes.Length) ==> loads == old(loads))
        && (0 <= c < sfizzes.Length ==> s == sfizzes[c] && loadAttempted[c])
        && (0 <= c < sfizzes.Length && old(loadAttempted[c]) ==> s == old(sfizzes[c]) && loads == old(loads))
        && (0 <= c < sfizzes.Length && !old(loadAttempted[c]) ==>
              loads == old(loads) + [c] && (s != null ==> fresh(s) && s.received == [] && s.rendered == 0))
    {
      s := GetSfizz(if singular then 0 else channel);
    }

    /** Playing one instrument (sending it events, rendering it) keeps the
        slots valid, as long as nothing else of the router changes. */
    twostate lemma PlayKeepsValid(s: Sfizz)
      requires old(Valid())
      requires unchanged(this, sfizzes, loadAttempted)
      requires forall t :: t in old(Repr) && t != s ==> unchanged(t)
      requires s.initialized == old(s.initialized) && s.sampleRate == old(s.sampleRate)
      requires s.samplesPerBlock == old(s.samplesPerBlock) && s.voice == old(s.voice)
      ensures Valid()
    {
      assert Synths() == old(Synths());
      forall c | 0 <= c < sfizzes.Length && sfizzes[c] != null
        ensures Plays(sfizzes[c], c)
      {
        var t := sfizzes[c];
        assert t == old(sfizzes[c]) && t in old(Synths());
        assert old(Plays(t, c));
      }
    }

    /** Releases every live instrument. */
    method Dispose()
      requires Valid()
      modifies Synths()
      ensures forall c :: 0 <= c < sfizzes.Length && sfizzes[c] != null ==> !sfizzes[c].initialized
      ensures forall s :: s in Synths() ==> s.voice == old(s.voice) && s.received == old(s.received) && s.rendered == old(s.rendered)
    {
      var i := 0;
      while i < sfizzes.Length
        invariant 0 <= i <= sfizzes.Length
        invariant forall c :: 0 <= c < i && sfizzes[c] != null ==> !sfizzes[c].initialized
        invariant forall s :: s in Synths() ==> s.voice == old(s.voice) && s.received == old(s.received) && s.rendered == old(s.rendered)
      {
        var s := sfizzes[i];
        if s != null {
          s.Dispose();
        }
        i := i + 1;
      }
    }
  }
}
