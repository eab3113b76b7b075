/** The run flag and the audio input of the speech service. Frames the call delivers
    are written to a push stream; the first frame raises the run flag, and shutting
    down releases the recognizer, the streams and the synthesizer and lowers the flag.
    The push stream is modelled by the bytes written to it; the recognition session,
    and so which of those bytes a recognizer ever reads, is not part of this model. */
module SpeechSession {

  newtype byte = x: int | 0 <= x < 256

  /** One audio frame, as the call delivers it. */
  type Frame = seq<byte>

  /** The bytes of `frames`, one frame after another. */
  function Concat(frames: seq<Frame>): seq<byte>
  {
    if frames == [] then [] else Concat(frames[..|frames| - 1]) + frames[|frames| - 1]
  }

  /** The frames of `frames` that hold at least one byte, in their order. */
  function NonEmpty(frames: seq<Frame>): seq<Frame>
  {
    if frames == [] then []
    else
      var last := frames[|frames| - 1];
      NonEmpty(frames[..|frames| - 1]) + (if |last| > 0 then [last] else [])
  }

  /** Appending one frame appends its bytes. */
  lemma ConcatSnoc(frames: seq<Frame>, f: Frame)
    ensures Concat(frames + [f]) == Concat(frames) + f
  {
    assert (frames + [f])[..|frames|] == frames;
  }

  /** The bytes of two runs of frames are the bytes of the first followed by those of
      the second. */
  lemma {:induction false} ConcatAppend(a: seq<Frame>, b: seq<Frame>)
    ensures Concat(a + b) == Concat(a) + Concat(b)
    decreases |b|
  {
    if b != [] {
      var init, last := b[..|b| - 1], b[|b| - 1];
      assert a + b == (a + init) + [last];
      ConcatSnoc(a + init, last);
      ConcatAppend(a, init);
      ConcatSnoc(init, last);
      assert b == init + [last];
    } else {
      assert a + b == a;
    }
  }

  /** Leaving out the empty frames changes no byte. */
  lemma {:induction false} ConcatIgnoresEmptyFrames(frames: seq<Frame>)
    ensures Concat(NonEmpty(frames)) == Concat(frames)
    decreases |frames|
  {
    if frames != [] {
      var init, last := frames[..|frames| - 1], frames[|frames| - 1];
      ConcatIgnoresEmptyFrames(init);
      ConcatAppend(NonEmpty(init), if |last| > 0 then [last] else []);
      if |last| > 0 {
        ConcatSnoc([], last);
      }
    }
  }

  /** What happened to one frame handed to `AppendAudioBuffer`. */
  datatype AppendOutcome =
    | Written      // its bytes went to the push stream
    | EmptyFrame   // it held no bytes, so nothing was written
    | WriteFailed  // the stream was already released: the write raised and was logged

  /** What one call of `ShutDownAsync` did. */
  datatype ShutdownOutcome =
    | WasNotRunning  // the flag was down: nothing to do
    | Released       // recognition stopped, every resource released, the flag lowered
    | Faulted        // the recognizer was already released: stopping it raised, nothing changed

  class SpeechService {
    /** The run flag. */
    var running: bool
    /** Whether the recognizer, the input and output streams and the synthesizer have
        been released. */
    var released: bool
    /** The bytes written to the push stream. */
    var inputStream: seq<byte>
    /** The frames written to the push stream, in order. */
    ghost var written: seq<Frame>
    /** How many times the resources have been released. */
    ghost var releases: nat

    /** The push stream holds exactly the written frames, none of them empty, and the
        resources are released at most once. */
    ghost predicate Valid()
      reads this
    {
      inputStream == Concat(written) &&
      (forall i :: 0 <= i < |written| ==> |written[i]| > 0) &&
      releases == (if released then 1 else 0)
    }

    constructor ()
      ensures Valid()
      ensures !running && !released && inputStream == [] && written == []
    {
      running, released := false, false;
      inputStream, written := [], [];
      releases := 0;
    }

    /** `Start`: raises the run flag; when it is already up nothing changes. */
    method Start()
      requires Valid()
      modifies this`running
      ensures Valid() && running
    {
      if !running {
        running := true;
      }
    }

    /** `AppendAudioBuffer`: a frame that arrives while the flag is down first starts the
        service; a frame with at least one byte is then written to the push stream. */
    method AppendAudioBuffer(frame: Frame) returns (outcome: AppendOutcome)
      requires Valid()
      modifies this`running, this`inputStream, this`written
      ensures Valid() && running
      ensures outcome == (if |frame| == 0 then EmptyFrame else if released then WriteFailed else Written)
      ensures outcome == Written ==> written == old(written) + [frame] && inputStream == old(inputStream) + frame
      ensures outcome != Written ==> written == old(written) && inputStream == old(inputStream)
    {
      if !running {
        Start();
      }
      if |frame| > 0 {
        if released {
          outcome := WriteFailed;
        } else {
          ConcatSnoc(written, frame);
          inputStream := inputStream + frame;
          written := written + [frame];
          outcome := Written;
        }
      } else {
        outcome := EmptyFrame;
      }
    }

    /** `ShutDownAsync`: with the flag down it does nothing; otherwise it stops
        recognition, releases every resource and lowers the flag. Stopping a recognizer
        that was released by an earlier shutdown raises before anything else is done. */
    method ShutDownAsync() returns (outcome: ShutdownOutcome)
      requires Valid()
      modifies this`running, this`released, this`releases
      ensures Valid()
      ensures !old(running) ==> outcome == WasNotRunning && !running && released == old(released)
      ensures old(running) && !old(released) ==> outcome == Released && !running && released
      ensures old(running) && old(released) ==> outcome == Faulted && running && released
      ensures releases <= 1
    {
      if !running {
        return WasNotRunning;
      }
      if released {
        return Faulted;
      }
      released := true;
      releases := releases + 1;
      running := false;
      outcome := Released;
    }
  }

  /** Frames handed one after another to a fresh service end up in the push stream in
      their order, with no byte lost, added or reordered. */
  method FeedFrames(frames: seq<Frame>) returns (stream: seq<byte>)
    ensures stream == Concat(frames)
  {
    var service := new SpeechService();
    var i := 0;
    while i < |frames|
      invariant 0 <= i <= |frames|
      invariant service.Valid() && !service.released
      invariant service.written == NonEmpty(frames[..i])
    {
      var outcome := service.AppendAudioBuffer(frames[i]);
      assert frames[..i + 1][..i] == frames[..i];
      i := i + 1;
    }
    assert frames[..|frames|] == frames;
    ConcatIgnoresEmptyFrames(frames);
    stream := service.inputStream;
  }

  /** Shutting a running service down twice releases its resources once: the second
      call finds the flag down and does nothing. */
  method ShutDownTwice(frame: Frame) returns (first: ShutdownOutcome, second: ShutdownOutcome)
    ensures first == Released && second == WasNotRunning
  {
    var service := new SpeechService();
    var appended := service.AppendAudioBuffer(frame);
    first := service.ShutDownAsync();
    second := service.ShutDownAsync();
    assert service.releases == 1;
  }

  /** A frame arriving after shutdown raises the flag again but is not written, and the
      next shutdown faults instead of releasing a second time. */
  method AppendAfterShutDown(frame: Frame) returns (appended: AppendOutcome, last: ShutdownOutcome)
    requires |frame| > 0
    ensures appended == WriteFailed && last == Faulted
  {
    var service := new SpeechService();
    var started := service.AppendAudioBuffer(frame);
    var first := service.ShutDownAsync();
    appended := service.AppendAudioBuffer(frame);
    last := service.ShutDownAsync();
  }
}
