/**
 * The state of `SpeechStream` (mic_stream.py) without its threads and
 * devices: the audio queue fed by the device callback, one iteration of the
 * recognition worker, the result cell read by `poll`, and the `start`/`stop`
 * lifecycle handles. The audio device and the recogniser are abstract
 * inputs: a `DeviceResponse` for what opening the device does, a
 * `RecognizerOutcome` for what the recogniser reports on a frame.
 */
module SpeechStreams {
  import opened Wrappers
  import opened LevelMeter
  import opened Recognition
  import opened FrameQueues

  /** What the audio library does when `start` asks for a running input stream. */
  datatype DeviceResponse =
    | AudioInitFails    // `pyaudio.PyAudio()` raises
    | OpenFails         // `open(...)` raises
    | StartStreamFails  // `start_stream()` raises
    | DeviceStarts      // the input stream runs and calls back

  /** The `_stream` handle: none, opened, or opened and started. */
  datatype DeviceStream = NoStream | OpenedStream | ActiveStream

  /** How one pass of the worker loop ended. */
  datatype StepResult =
    | Stopped    // the stop event was set, so the loop exits
    | TimedOut   // no frame arrived, so the loop goes round again
    | Processed  // one frame was measured, recognised and published

  class SpeechStream {
    const sampleRate: int
    const channels: int
    const chunkFrames: int
    const deviceIndex: Option<int>
    const usePartial: bool

    /** `_audio_q`. */
    const audioQ: FrameQueue

    /** `_pa` is set. */
    var pa: bool
    /** `_stream`. */
    var stream: DeviceStream
    /** `_worker_thread` is set. */
    var worker: bool
    /** `_stop_event` is set. */
    var stopRequested: bool

    /** The result cell guarded by `_result_lock`. */
    var lastText: Option<string>
    var lastRms: Rms
    var lastDbfs: Dbfs

    /**
     * The object invariant: the queue is the 32-slot queue and never over
     * capacity; a stream handle only exists with an audio handle; a worker
     * only exists with a started stream and a cleared stop event; and the
     * published dBFS value is always the one of the published RMS.
     */
    ghost predicate Valid()
      reads this, audioQ
    {
      && audioQ.maxsize == QueueSize
      && |audioQ.items| <= QueueSize
      && (stream != NoStream ==> pa)
      && (worker ==> stream == ActiveStream && !stopRequested)
      && lastDbfs == RmsToDbfs(lastRms)
    }

    /** `__init__` without loading the recogniser model. */
    constructor (sampleRate: int := 16000, channels: int := 1, chunkFrames: int := 4096,
                 deviceIndex: Option<int> := None, usePartial: bool := true)
      ensures Valid() && fresh(audioQ)
      ensures this.sampleRate == sampleRate && this.channels == channels
      ensures this.chunkFrames == chunkFrames && this.deviceIndex == deviceIndex
      ensures this.usePartial == usePartial
      ensures audioQ.items == []
      ensures !pa && stream == NoStream && !worker && !stopRequested
      ensures lastText == None && lastRms == SilentRms && lastDbfs == NegativeInfinity
    {
      this.sampleRate := sampleRate;
      this.channels := channels;
      this.chunkFrames := chunkFrames;
      this.deviceIndex := deviceIndex;
      this.usePartial := usePartial;
      audioQ := new FrameQueue(QueueSize);
      pa := false;
      stream := NoStream;
      worker := false;
      stopRequested := false;
      lastText := None;
      lastRms := SilentRms;
      lastDbfs := RmsToDbfs(SilentRms);
    }

    /**
     * `start`: does nothing once the audio handle is set; otherwise sets the
     * handle, opens and starts the input stream, clears the stop event and
     * starts the worker. `ok` is false when the audio library raised, which
     * the caller sees as an exception; the handles assigned before the
     * failure stay set.
     */
    method Start(device: DeviceResponse) returns (ok: bool)
      requires Valid()
      modifies this
      ensures Valid()
      ensures ok <==> old(pa) || device == DeviceStarts
      ensures old(pa) ==> pa && stream == old(stream) && worker == old(worker)
                          && stopRequested == old(stopRequested)
      ensures !old(pa) ==>
                && pa == (device != AudioInitFails)
                && stream == (match device
                              case AudioInitFails => old(stream)
                              case OpenFails => old(stream)
                              case StartStreamFails => OpenedStream
                              case DeviceStarts => ActiveStream)
                && worker == (device == DeviceStarts || old(worker))
                && stopRequested == (device != DeviceStarts && old(stopRequested))
      ensures lastText == old(lastText) && lastRms == old(lastRms) && lastDbfs == old(lastDbfs)
    {
      if pa {
        return true;
      }
      if device == AudioInitFails {
        return false;
      }
      pa := true;
      if device == OpenFails {
        return false;
      }
      stream := OpenedStream;
      if device == StartStreamFails {
        return false;
      }
      stream := ActiveStream;
      stopRequested := false;
      worker := true;
      ok := true;
    }

    /**
     * `poll`: returns the published text and levels and resets only the
     * text, under the result lock.
     */
    method Poll() returns (text: Option<string>, rms: Rms, dbfs: Dbfs)
      requires Valid()
      modifies this`lastText
      ensures Valid()
      ensures text == old(lastText) && rms == lastRms && dbfs == lastDbfs
      ensures lastText == None
    {
      text := lastText;
      rms := lastRms;
      dbfs := lastDbfs;
      lastText := None;
    }

    /**
     * `stop`: sets the stop event, forgets the worker (after a bounded join),
     * closes the stream and the audio handle (suppressing their errors) and
     * drains the queue. The published result is left as it was.
     */
    method Stop()
      requires Valid()
      modifies this, audioQ
      ensures Valid()
      ensures stopRequested && !worker && stream == NoStream && !pa
      ensures audioQ.items == []
      ensures lastText == old(lastText) && lastRms == old(lastRms) && lastDbfs == old(lastDbfs)
    {
      stopRequested := true;
      if worker {
        worker := false;
      }
      if stream != NoStream {
        stream := NoStream;
      }
      if pa {
        pa := false;
      }
      DrainQueue();
    }

    /**
     * `_pyaudio_callback`: a non-blocking put; when the queue is full the
     * oldest frame is taken out and the put is tried once more.
     */
    method DeviceCallback(inData: Frame)
      requires Valid() && stream == ActiveStream
      modifies audioQ
      ensures Valid()
      ensures audioQ.items == DropOldestPush(old(audioQ.items), inData, QueueSize)
    {
      var ok := audioQ.PutNowait(inData);
      if !ok {
        var evicted := audioQ.GetNowait();
        ok := audioQ.PutNowait(inData);
      }
    }

    /**
     * One pass of `_recognition_worker`'s loop. When the stop event is set
     * the loop ends; when no frame is queued it times out; otherwise it takes
     * the oldest frame, measures it, asks the recogniser, and publishes: the
     * levels always, the text only when the step produced a fragment.
     */
    method WorkerIteration(outcome: RecognizerOutcome) returns (r: StepResult)
      requires Valid() && (worker || stopRequested)
      modifies this`lastRms, this`lastDbfs, this`lastText, audioQ
      ensures Valid()
      ensures r == Stopped <==> old(stopRequested)
      ensures r == TimedOut <==> !old(stopRequested) && old(audioQ.items) == []
      ensures r != Processed ==>
                audioQ.items == old(audioQ.items) && lastText == old(lastText)
                && lastRms == old(lastRms) && lastDbfs == old(lastDbfs)
      ensures r == Processed ==>
                && audioQ.items == old(audioQ.items)[1..]
                && lastRms == RootOf(MeanSquare(old(audioQ.items)[0], 2 * channels))
                && lastDbfs == RmsToDbfs(lastRms)
                && lastText == (if Fragment(outcome, usePartial).Some?
                                then Fragment(outcome, usePartial) else old(lastText))
    {
      if stopRequested {
        return Stopped;
      }
      var next := audioQ.GetNowait();
      if next == None {
        return TimedOut;
      }
      Process(next.value, outcome);
      r := Processed;
    }

    /** The body of a worker step once a frame was taken: measure, recognise, publish. */
    method Process(data: Frame, outcome: RecognizerOutcome)
      requires Valid()
      modifies this`lastRms, this`lastDbfs, this`lastText
      ensures Valid()
      ensures lastRms == RootOf(MeanSquare(data, 2 * channels))
      ensures lastDbfs == RmsToDbfs(lastRms)
      ensures lastText == if Fragment(outcome, usePartial).Some? then Fragment(outcome, usePartial) else old(lastText)
    {
      var rms := RmsInt16(data, 2 * channels);
      var dbfs := RmsToDbfs(rms);
      var textUpdate := Fragment(outcome, usePartial);
      Publish(rms, dbfs, textUpdate);
    }

    /**
     * The worker's update of the result cell under the result lock: the
     * levels are always overwritten, the text only by a new fragment.
     */
    method Publish(rms: Rms, dbfs: Dbfs, textUpdate: Option<string>)
      requires Valid() && dbfs == RmsToDbfs(rms)
      modifies this`lastRms, this`lastDbfs, this`lastText
      ensures Valid()
      ensures lastRms == rms && lastDbfs == dbfs
      ensures lastText == if textUpdate.Some? then textUpdate else old(lastText)
    {
      lastRms := rms;
      lastDbfs := dbfs;
      if textUpdate.Some? {
        lastText := textUpdate;
      }
    }

    /** `_drain_queue`: takes frames out until the queue reports empty. */
    method DrainQueue()
      requires Valid()
      modifies audioQ
      ensures Valid()
      ensures audioQ.items == []
    {
      while !audioQ.Empty()
        invariant Valid()
        decreases |audioQ.items|
      {
        var dropped := audioQ.GetNowait();
      }
    }
  }

  /**
   * Three frames where only the second produces the final hypothesis
   * "hello", each followed by a poll: the polls see no text, "hello", and no
   * text again, while the levels follow every frame.
   */
  method HelloScenario(f1: Frame, f2: Frame, f3: Frame)
    returns (t1: Option<string>, t2: Option<string>, t3: Option<string>,
             r1: Rms, r2: Rms, r3: Rms)
    ensures t1 == None && t2 == Some("hello") && t3 == None
    ensures r1.meanSquare == MeanSquare(f1, 2)
    ensures r2.meanSquare == MeanSquare(f2, 2)
    ensures r3.meanSquare == MeanSquare(f3, 2)
  {
    var s := new SpeechStream();
    var ok := s.Start(DeviceStarts);
    HelloFragments();
    t1, r1 := FrameThenPoll(s, f1, Pending(""));
    t2, r2 := FrameThenPoll(s, f2, Accepted(" hello "));
    t3, r3 := FrameThenPoll(s, f3, Pending("  "));
  }

  /** The device delivers one frame into an empty queue, the worker takes it, the caller polls. */
  method FrameThenPoll(s: SpeechStream, f: Frame, outcome: RecognizerOutcome)
    returns (text: Option<string>, rms: Rms)
    requires s.Valid() && s.worker && s.audioQ.items == []
    modifies s, s.audioQ
    ensures s.Valid() && s.worker && s.audioQ.items == [] && s.lastText == None
    ensures rms.meanSquare == MeanSquare(f, 2 * s.channels)
    ensures text == if Fragment(outcome, s.usePartial).Some? then Fragment(outcome, s.usePartial)
                    else old(s.lastText)
  {
    DeliverAndRecognise(s, f, outcome);
    var dbfs: Dbfs;
    text, rms, dbfs := s.Poll();
  }

  /** The device delivers one frame into an empty queue and the worker processes it. */
  method DeliverAndRecognise(s: SpeechStream, f: Frame, outcome: RecognizerOutcome)
    requires s.Valid() && s.worker && s.audioQ.items == []
    modifies s`lastRms, s`lastDbfs, s`lastText, s.audioQ
    ensures s.Valid() && s.audioQ.items == []
    ensures s.lastRms == RootOf(MeanSquare(f, 2 * s.channels))
    ensures s.lastText == if Fragment(outcome, s.usePartial).Some? then Fragment(outcome, s.usePartial)
                          else old(s.lastText)
  {
    PushWithRoom([], f, QueueSize);
    s.DeviceCallback(f);
    assert s.audioQ.items == [f];
    var step := s.WorkerIteration(outcome);
  }

  /** A second poll straight after the first sees no text and the same levels. */
  method PollTwice(s: SpeechStream)
    returns (first: (Option<string>, Rms, Dbfs), second: (Option<string>, Rms, Dbfs))
    requires s.Valid()
    modifies s`lastText
    ensures first == (old(s.lastText), s.lastRms, s.lastDbfs)
    ensures second == (None, first.1, first.2)
  {
    var t1, r1, d1 := s.Poll();
    var t2, r2, d2 := s.Poll();
    first, second := (t1, r1, d1), (t2, r2, d2);
  }

  lemma HelloFragments()
    ensures Fragment(Pending(""), true) == None
    ensures Fragment(Accepted(" hello "), true) == Some("hello")
    ensures Fragment(Pending("  "), true) == None
  {
    BlankPartials();
    HelloAccepted();
  }

  lemma BlankPartials()
    ensures Fragment(Pending(""), true) == None
    ensures Fragment(Pending("  "), true) == None
  {
    BlankSpaces();
    assert IsBlank("");
  }

  lemma HelloAccepted()
    ensures Fragment(Accepted(" hello "), true) == Some("hello")
  {
    StripHello();
    assert !IsBlank(" hello ") by {
      assert !IsSpace(" hello "[1]);
    }
  }

  lemma StripHello()
    ensures Strip(" hello ") == "hello"
  {
    assert IsSpace(' ') && !IsSpace('h') && !IsSpace('o');
    assert " hello "[1..] == "hello ";
    assert StripLeading("hello ") == "hello ";
    assert "hello "[..5] == "hello";
    assert StripTrailing("hello ") == "hello";
  }

  lemma BlankSpaces()
    ensures IsBlank("  ")
  {
    assert IsSpace(' ');
  }

  /**
   * `start` twice starts once; `stop` empties the queue and releases every
   * handle, so the next `start` opens a fresh stream and worker.
   */
  method RestartScenario(frames: seq<Frame>, outcome: RecognizerOutcome)
    returns (firstStart: bool, secondStartChanged: bool, queuedAfterStop: nat, restarted: bool)
    ensures firstStart && !secondStartChanged && queuedAfterStop == 0 && restarted
  {
    var s := new SpeechStream(16000, 1, 4096, None, true);
    firstStart := s.Start(DeviceStarts);
    var before := (s.pa, s.stream, s.worker, s.stopRequested);
    var again := s.Start(OpenFails);
    secondStartChanged := (s.pa, s.stream, s.worker, s.stopRequested) != before;
    var i := 0;
    while i < |frames|
      invariant 0 <= i <= |frames| && s.Valid()
      invariant s.pa && s.stream == ActiveStream && s.worker
    {
      s.DeviceCallback(frames[i]);
      i := i + 1;
    }
    s.Stop();
    queuedAfterStop := |s.audioQ.items|;
    var ok := s.Start(DeviceStarts);
    restarted := ok && s.pa && s.stream == ActiveStream && s.worker && !s.stopRequested;
  }

  /**
   * As written, a failed `open` leaves the audio handle set, so every later
   * `start` is a no-op that reports success without a stream or a worker,
   * until `stop` clears the handle.
   */
  method FailedOpenScenario() returns (firstOk: bool, retryOk: bool, retryRunning: bool)
    ensures !firstOk && retryOk && !retryRunning
  {
    var s := new SpeechStream(16000, 1, 4096, None, true);
    firstOk := s.Start(OpenFails);
    retryOk := s.Start(DeviceStarts);
    retryRunning := s.stream == ActiveStream || s.worker;
  }
}
