/** Playing generated speech while it is generated (`tts_local.py`).

    The generator puts chunks of samples into a queue; the audio device asks a callback for a
    fixed number of frames at a time. */
module Playback {
  import opened Options

  type Chunk = seq<real>

  /** The samples of a queue, in order. */
  function Samples(queue: seq<Chunk>): seq<real> {
    if queue == [] then [] else queue[0] + Samples(queue[1..])
  }

  lemma {:induction false} SamplesAppend(queue: seq<Chunk>, chunk: Chunk)
    ensures Samples(queue + [chunk]) == Samples(queue) + chunk
  {
    if queue == [] {
      assert queue + [chunk] == [chunk] && Samples([chunk]) == chunk + Samples([chunk][1..]);
    } else {
      assert (queue + [chunk])[1..] == queue[1..] + [chunk];
      SamplesAppend(queue[1..], chunk);
    }
  }

  function Min(a: nat, b: nat): nat {
    if a <= b then a else b
  }

  /** The chunks left after so many samples have been taken. */
  function Taken(queue: seq<Chunk>, frames: nat): seq<Chunk> {
    if frames == 0 || queue == [] then queue
    else if frames <= |queue[0]| then
      (if frames == |queue[0]| then [] else [queue[0][frames..]]) + queue[1..]
    else Taken(queue[1..], frames - |queue[0]|)
  }

  class Player {
    var buffer: seq<Chunk>
    var started: bool
    var stopped: bool
    var killed: bool
    var finished: bool      // the event the main thread waits for

    constructor ()
      ensures buffer == [] && !started && !stopped && !killed && !finished
    {
      buffer, started, stopped, killed, finished := [], false, false, false, false;
    }

    /** Called by the generator; tells it whether to go on. */
    method GeneratedAudioCallback(samples: Chunk) returns (goOn: bool)
      modifies this`buffer, this`started
      ensures Samples(buffer) == Samples(old(buffer)) + samples && started && goOn == !killed
    {
      SamplesAppend(buffer, samples);
      buffer := buffer + [samples];
      started := true;
      goOn := !killed;
    }

    /** Called by the device: the first samples of the queue, as many as there are frames, then
        silence. The samples after these stay queued. */
    method PlayAudioCallback(outdata: array<real>)
      modifies this`buffer, this`finished, outdata
      ensures var queued := Samples(old(buffer)); var n := Min(outdata.Length, |queued|);
        && outdata[..n] == queued[..n]
        && (forall i :: n <= i < outdata.Length ==> outdata[i] == 0.0)
        && Samples(buffer) == queued[n..]
      ensures buffer == Taken(old(buffer), outdata.Length)
      ensures finished <==> old(finished) || killed || (started && old(buffer) == [] && stopped)
    {
      if killed || (started && buffer == [] && stopped) {
        finished := true;
      }
      var n := TakeFrames(outdata);
      FillWithSilence(outdata, n);
    }

    /** Takes frames off the first chunk, and the chunk off the queue when none is left. */
    method TakePart(frames: nat)
      requires buffer != [] && frames <= |buffer[0]|
      modifies this`buffer
      ensures Samples(buffer) == Samples([old(buffer)[0][frames..]] + old(buffer)[1..])
      ensures frames > 0 ==> buffer == Taken(old(buffer), frames)
    {
      ghost var was := buffer;
      buffer := [buffer[0][frames..]] + buffer[1..];
      if buffer[0] == [] {
        buffer := buffer[1..];
        assert buffer == [] + was[1..];
      }
    }

    /** The loop of the callback; `n` frames are written. */
    method TakeFrames(outdata: array<real>) returns (n: nat)
      modifies this`buffer, outdata
      ensures var queued := Samples(old(buffer));
        n == Min(outdata.Length, |queued|) && outdata[..n] == queued[..n] && Samples(buffer) == queued[n..]
      ensures buffer == Taken(old(buffer), outdata.Length)
    {
      var frames := outdata.Length;
      ghost var queued := Samples(buffer);
      n := 0;
      while n < frames && buffer != []
        invariant 0 <= n <= frames && n <= |queued|
        invariant outdata[..n] == queued[..n] && Samples(buffer) == queued[n..]
        invariant Taken(buffer, frames - n) == Taken(old(buffer), frames)
        decreases |buffer|
      {
        var (remaining, k) := (frames - n, |buffer[0]|);
        SampleRuns(queued, n, buffer, Min(remaining, k));
        if remaining <= k {
          CopyInto(outdata, n, buffer[0][..remaining]);
          TakePart(remaining);
          n := frames;
          break;
        }
        CopyInto(outdata, n, buffer[0]);
        buffer := buffer[1..];
        n := n + k;
      }
    }
  }

  /** The next samples of the queue are those of its first chunk. */
  lemma SampleRuns(queued: seq<real>, n: nat, queue: seq<Chunk>, k: nat)
    requires n <= |queued| && queue != [] && Samples(queue) == queued[n..] && k <= |queue[0]|
    ensures n + k <= |queued| && queued[..n + k] == queued[..n] + queue[0][..k]
    ensures queued[n + k..] == Samples([queue[0][k..]] + queue[1..])
    ensures k == |queue[0]| ==> queue[0][..k] == queue[0] && queued[n + k..] == Samples(queue[1..])
  {
    SplitHead(queue, k);
    assert queued[..n + k] == queued[..n] + queued[n..][..k];
    assert queued[n + k..] == queued[n..][k..];
    if k == |queue[0]| {
      assert ([queue[0][k..]] + queue[1..])[1..] == queue[1..];
    }
  }

  /** Taking samples off the first chunk takes them off the queue. */
  lemma SplitHead(queue: seq<Chunk>, k: nat)
    requires queue != [] && k <= |queue[0]|
    ensures Samples([queue[0][k..]] + queue[1..]) == Samples(queue)[k..]
    ensures Samples(queue)[..k] == queue[0][..k]
  {
    var shorter := [queue[0][k..]] + queue[1..];
    assert shorter[1..] == queue[1..];
  }

  method CopyInto(outdata: array<real>, at: nat, samples: Chunk)
    requires at + |samples| <= outdata.Length
    modifies outdata
    ensures outdata[..at + |samples|] == old(outdata[..at]) + samples
  {
    var i := 0;
    while i < |samples|
      invariant 0 <= i <= |samples|
      invariant outdata[..at] == old(outdata[..at]) && outdata[at..at + i] == samples[..i]
    {
      outdata[at + i] := samples[i];
      i := i + 1;
    }
    assert outdata[..at + |samples|] == outdata[..at] + outdata[at..at + |samples|];
  }

  method FillWithSilence(outdata: array<real>, at: nat)
    requires at <= outdata.Length
    modifies outdata
    ensures outdata[..at] == old(outdata[..at]) && forall i :: at <= i < outdata.Length ==> outdata[i] == 0.0
  {
    var i := at;
    while i < outdata.Length
      invariant at <= i <= outdata.Length
      invariant outdata[..at] == old(outdata[..at]) && forall j :: at <= j < i ==> outdata[j] == 0.0
    {
      outdata[i] := 0.0;
      i := i + 1;
    }
  }

  // ---- a whole playback ----

  /** Where a callback is: it has read that the queue is empty and will look at `stopped`
      next, or it is about to write its frames. */
  datatype Turn = Outside | SawEmpty | Writing

  /** A frame sent to the device: a sample, or silence because there was none. */
  datatype Frame = Heard(sample: real) | Silence

  datatype State = State(
    buffer: seq<Chunk>, started: bool, stopped: bool, killed: bool, finished: bool, turn: Turn,
    generated: seq<real>, output: seq<Frame>)

  datatype Event =
    | Put(chunk: Chunk)
    | Stop
    | Kill
    | Begin               // the device calls; the callback reads killed, started and the queue
    | LookAtStopped
    | Write(frames: nat)

  /** The generator has returned before `stopped` is set. */
  predicate Enabled(s: State, e: Event) {
    match e
    case Put(_) => !s.stopped
    case Stop => true
    case Kill => true
    case Begin => s.turn.Outside?
    case LookAtStopped => s.turn.SawEmpty?
    case Write(_) => s.turn.Writing?
  }

  function FramesOf(samples: seq<real>): seq<Frame> {
    seq(|samples|, i requires 0 <= i < |samples| => Heard(samples[i]))
  }

  function Quiet(k: nat): seq<Frame> {
    seq(k, i => Silence)
  }

  function Written(s: State, frames: nat): seq<Frame> {
    var n := Min(frames, |Samples(s.buffer)|);
    FramesOf(Samples(s.buffer)[..n]) + Quiet(frames - n)
  }

  function Apply(s: State, e: Event): State
    requires Enabled(s, e)
  {
    match e
    case Put(chunk) => s.(buffer := s.buffer + [chunk], started := true, generated := s.generated + chunk)
    case Stop => s.(stopped := true)
    case Kill => s.(killed := true)
    case Begin =>
      if s.killed then s.(finished := true, turn := Writing)
      else if s.started && s.buffer == [] then s.(turn := SawEmpty)
      else s.(turn := Writing)
    case LookAtStopped => s.(finished := s.finished || s.stopped, turn := Writing)
    case Write(frames) =>
      s.(buffer := Taken(s.buffer, frames), output := s.output + Written(s, frames), turn := Outside)
  }

  ghost predicate IsRun(s: State, events: seq<Event>)
    decreases |events|
  {
    events == [] || (Enabled(s, events[0]) && IsRun(Apply(s, events[0]), events[1..]))
  }

  ghost function After(s: State, events: seq<Event>): State
    requires IsRun(s, events)
    decreases |events|
  {
    if events == [] then s else After(Apply(s, events[0]), events[1..])
  }

  const Fresh := State([], false, false, false, false, Outside, [], [])

  /** The samples among the frames. */
  function Audible(frames: seq<Frame>): seq<real> {
    if frames == [] then []
    else Audible(frames[..|frames| - 1]) + if frames[|frames| - 1].Heard? then [frames[|frames| - 1].sample] else []
  }

  lemma {:induction false} AudibleJoin(a: seq<Frame>, b: seq<Frame>)
    ensures Audible(a + b) == Audible(a) + Audible(b)
    decreases |b|
  {
    if b == [] {
      assert a + b == a;
    } else {
      assert (a + b)[..|a + b| - 1] == a + b[..|b| - 1];
      AudibleJoin(a, b[..|b| - 1]);
    }
  }

  lemma {:induction false} AudibleFrames(samples: seq<real>)
    ensures Audible(FramesOf(samples)) == samples
    decreases |samples|
  {
    if samples != [] {
      var front := samples[..|samples| - 1];
      assert FramesOf(samples)[..|samples| - 1] == FramesOf(front);
      AudibleFrames(front);
      assert samples == front + [samples[|samples| - 1]];
    }
  }

  lemma {:induction false} AudibleQuiet(k: nat)
    ensures Audible(Quiet(k)) == []
  {
    if k > 0 {
      assert Quiet(k)[..k - 1] == Quiet(k - 1);
      AudibleQuiet(k - 1);
    }
  }

  /** What is left after taking frames are the samples after these. */
  lemma {:induction false} TakenSamples(queue: seq<Chunk>, frames: nat)
    ensures Samples(Taken(queue, frames)) == Samples(queue)[Min(frames, |Samples(queue)|)..]
    decreases |queue|
  {
    if frames > 0 && queue != [] {
      if frames <= |queue[0]| {
        SplitHead(queue, frames);
        assert frames == |queue[0]| ==> [] + queue[1..] == queue[1..] && queue[0][frames..] == [];
        assert frames == |queue[0]| ==> Samples([queue[0][frames..]] + queue[1..]) == Samples(queue[1..]) by {
          assert ([queue[0][frames..]] + queue[1..])[1..] == queue[1..];
        }
      } else {
        TakenSamples(queue[1..], frames - |queue[0]|);
      }
    }
  }

  /** Everything generated has been heard or is still queued, in order. */
  ghost predicate Conserved(s: State) {
    Audible(s.output) + Samples(s.buffer) == s.generated
  }

  lemma WrittenIsHeard(s: State, frames: nat)
    ensures Audible(Written(s, frames)) == Samples(s.buffer)[..Min(frames, |Samples(s.buffer)|)]
  {
    var n := Min(frames, |Samples(s.buffer)|);
    var head := Samples(s.buffer)[..n];
    AudibleFrames(head);
    AudibleQuiet(frames - n);
    AudibleJoin(FramesOf(head), Quiet(frames - n));
    assert head + [] == head;
  }

  lemma WriteConserves(s: State, frames: nat)
    requires Conserved(s) && s.turn.Writing?
    ensures Conserved(Apply(s, Write(frames)))
  {
    var (heard, samples, n) := (Audible(s.output), Samples(s.buffer), Min(frames, |Samples(s.buffer)|));
    var (written, t) := (Written(s, frames), Apply(s, Write(frames)));
    assert Audible(t.output) == heard + samples[..n] by {
      WrittenIsHeard(s, frames);
      AudibleJoin(s.output, written);
    }
    assert Samples(t.buffer) == samples[n..] by { TakenSamples(s.buffer, frames); }
    SplitSamples(heard, samples, n);
  }

  lemma SplitSamples(heard: seq<real>, samples: seq<real>, n: nat)
    requires n <= |samples|
    ensures heard + samples[..n] + samples[n..] == heard + samples
  {
    assert samples[..n] + samples[n..] == samples;
  }

  lemma Regroup(a: seq<real>, b: seq<real>, c: seq<real>)
    ensures a + b + c == a + (b + c)
  {
  }

  lemma StepConserves(s: State, e: Event)
    requires Conserved(s) && Enabled(s, e)
    ensures Conserved(Apply(s, e))
  {
    match e
    case Put(chunk) =>
      SamplesAppend(s.buffer, chunk);
      Regroup(Audible(s.output), Samples(s.buffer), chunk);
    case Write(frames) => WriteConserves(s, frames);
    case _ =>
  }

  lemma {:induction false} RunConserves(s: State, events: seq<Event>)
    requires Conserved(s) && IsRun(s, events)
    ensures Conserved(After(s, events))
    decreases |events|
  {
    if events != [] {
      StepConserves(s, events[0]);
      RunConserves(Apply(s, events[0]), events[1..]);
    }
  }

  /** In every run the output without its silences is a prefix of what was generated, and what
      is missing is exactly what is queued. */
  lemma OutputIsPrefix(events: seq<Event>)
    requires IsRun(Fresh, events)
    ensures var s := After(Fresh, events);
      Audible(s.output) <= s.generated && s.generated[|Audible(s.output)|..] == Samples(s.buffer)
  {
    RunConserves(Fresh, events);
    var s := After(Fresh, events);
    assert s.generated == Audible(s.output) + Samples(s.buffer);
  }

  // ---- the end of a playback ----

  /** No chunk arrives between the callback's two looks. */
  ghost predicate Undisturbed(s: State, events: seq<Event>)
    requires IsRun(s, events)
    decreases |events|
  {
    events == [] || (!(s.turn.SawEmpty? && events[0].Put?) && Undisturbed(Apply(s, events[0]), events[1..]))
  }

  ghost predicate EndOk(s: State) {
    && (s.turn.SawEmpty? ==> s.buffer == [])
    && (s.finished && !s.killed ==> s.stopped && s.buffer == [])
  }

  lemma {:induction false} UndisturbedEnd(s: State, events: seq<Event>)
    requires EndOk(s) && IsRun(s, events) && Undisturbed(s, events)
    ensures EndOk(After(s, events))
    decreases |events|
  {
    if events != [] { UndisturbedEnd(Apply(s, events[0]), events[1..]); }
  }

  /** Unless the player is killed, the end is announced only after everything that was ever
      generated has been heard, provided no chunk arrives between the callback's two looks. */
  lemma EndAfterEverything(events: seq<Event>)
    requires IsRun(Fresh, events) && Undisturbed(Fresh, events)
    requires After(Fresh, events).finished && !After(Fresh, events).killed
    ensures var s := After(Fresh, events); s.stopped && Audible(s.output) == s.generated
  {
    UndisturbedEnd(Fresh, events);
    RunConserves(Fresh, events);
    assert Audible(After(Fresh, events).output) + [] == Audible(After(Fresh, events).output);
  }

  lemma Prepend(s: State, e: Event, t: State, rest: seq<Event>, last: State)
    requires Enabled(s, e) && Apply(s, e) == t && IsRun(t, rest) && After(t, rest) == last
    ensures IsRun(s, [e] + rest) && After(s, [e] + rest) == last
  {
    assert ([e] + rest)[0] == e && ([e] + rest)[1..] == rest;
  }

  lemma {:induction false} LastStep(s: State, events: seq<Event>)
    requires events != [] && IsRun(s, events)
    ensures var (front, e) := (events[..|events| - 1], events[|events| - 1]);
      IsRun(s, front) && Enabled(After(s, front), e) && After(s, events) == Apply(After(s, front), e)
    decreases |events|
  {
    var (front, e) := (events[..|events| - 1], events[|events| - 1]);
    if |events| > 1 {
      var t := Apply(s, events[0]);
      LastStep(t, events[1..]);
      assert events[1..][..|events| - 2] == front[1..];
    } else {
      assert front == [] && events[1..] == [];
    }
  }

  /** The samples put into the queue since the device last called. */
  function LateSamples(events: seq<Event>): seq<real> {
    if events == [] || events[|events| - 1].Begin? then []
    else LateSamples(events[..|events| - 1]) + if events[|events| - 1].Put? then events[|events| - 1].chunk else []
  }

  lemma {:induction false} QueuedAreLate(events: seq<Event>)
    requires IsRun(Fresh, events) && After(Fresh, events).turn.SawEmpty?
    ensures Samples(After(Fresh, events).buffer) == LateSamples(events)
    decreases |events|
  {
    if events != [] {
      LastStep(Fresh, events);
      var (front, e) := (events[..|events| - 1], events[|events| - 1]);
      if !e.Begin? { QueuedAreLate(front); }
      if e.Put? { SamplesAppend(After(Fresh, front).buffer, e.chunk); }
    }
  }

  lemma HeardIffNoneQueued(s: State)
    requires Conserved(s)
    ensures Audible(s.output) == s.generated <==> Samples(s.buffer) == []
  {
    assert Audible(s.output) + [] == Audible(s.output);
  }

  /** A callback announces the end too soon exactly if the generator has stopped, and samples
      arrived between the two looks. */
  lemma EarlyIffSamplesBetweenLooks(events: seq<Event>)
    requires IsRun(Fresh, events)
    requires var s := After(Fresh, events); s.turn.SawEmpty? && !s.finished
    ensures var s := After(Fresh, events); var t := Apply(s, LookAtStopped);
      t.finished && Audible(t.output) != t.generated <==> s.stopped && LateSamples(events) != []
  {
    RunConserves(Fresh, events);
    QueuedAreLate(events);
    HeardIffNoneQueued(After(Fresh, events));
  }

  /** What a callback that has just found the queue empty may come to: within its turn it
      announces the end, of a player that has not been killed, while samples are queued. */
  ghost predicate EarlyInThisTurn(s: State, events: seq<Event>) {
    && IsRun(s, events) && events != [] && events[|events| - 1] == LookAtStopped
    && (forall i :: 0 <= i < |events| - 1 ==> events[i] != LookAtStopped)
    && After(s, events).finished && !After(s, events).killed
    && Audible(After(s, events).output) != After(s, events).generated
  }

  lemma {:induction false} AllHeardStays(s: State, events: seq<Event>)
    requires IsRun(s, events) && s.stopped && Samples(s.buffer) == []
    ensures Samples(After(s, events).buffer) == []
    decreases |events|
  {
    if events != [] {
      if events[0].Write? { TakenSamples(s.buffer, events[0].frames); }
      AllHeardStays(Apply(s, events[0]), events[1..]);
    }
  }

  /** The end may come early, whatever happened before, if and only if the generator had not
      stopped when the callback found the queue empty, or samples have arrived since. */
  lemma EndMayComeEarlyIff(s: State)
    requires Conserved(s) && s.turn.SawEmpty? && !s.killed && !s.finished
    ensures (exists events :: EarlyInThisTurn(s, events)) <==> !s.stopped || Samples(s.buffer) != []
  {
    if s.stopped && Samples(s.buffer) == [] {
      forall events | IsRun(s, events) ensures !EarlyInThisTurn(s, events) {
        AllHeardStays(s, events);
        RunConserves(s, events);
        HeardIffNoneQueued(After(s, events));
      }
    } else if s.stopped {
      var t := Apply(s, LookAtStopped);
      Prepend(s, LookAtStopped, t, [], t);
      HeardIffNoneQueued(s);
      assert EarlyInThisTurn(s, [LookAtStopped] + []);
    } else {
      var events := LastChunkIsMissed(s, [0.0]);
    }
  }

  /** If the last chunk arrives and the generator stops just after the callback found the queue
      empty, the end is announced while that chunk is still queued. */
  lemma LastChunkIsMissed(s: State, chunk: Chunk) returns (events: seq<Event>)
    requires Conserved(s) && s.turn.SawEmpty? && !s.stopped && !s.killed && chunk != []
    ensures events == [Put(chunk), Stop, LookAtStopped] && EarlyInThisTurn(s, events)
  {
    var s1 := Apply(s, Put(chunk));
    var s2 := Apply(s1, Stop);
    var s3 := Apply(s2, LookAtStopped);
    Prepend(s2, LookAtStopped, s3, [], s3);
    Prepend(s1, Stop, s2, [LookAtStopped] + [], s3);
    Prepend(s, Put(chunk), s1, [Stop] + ([LookAtStopped] + []), s3);
    events := [Put(chunk)] + ([Stop] + ([LookAtStopped] + []));
    StepConserves(s, Put(chunk));
    HeardIffNoneQueued(s1);
    SamplesAppend(s.buffer, chunk);
  }

  /** And the situation does arise. */
  lemma SawEmptyIsReachable(first: Chunk) returns (events: seq<Event>)
    requires first != []
    ensures IsRun(Fresh, events)
    ensures var s := After(Fresh, events); s.turn.SawEmpty? && s.buffer == [] && !s.stopped && !s.killed
  {
    var n := |first|;
    var s1 := Apply(Fresh, Put(first));
    var s2 := Apply(s1, Begin);
    var s3 := Apply(s2, Write(n));
    var s4 := Apply(s3, Begin);
    assert s1.buffer == [first];
    assert s3.buffer == [];
    Prepend(s3, Begin, s4, [], s4);
    Prepend(s2, Write(n), s3, [Begin], s4);
    Prepend(s1, Begin, s2, [Write(n)] + [Begin], s4);
    events := [Begin] + ([Write(n)] + [Begin]);
    Prepend(Fresh, Put(first), s1, events, s4);
    events := [Put(first)] + events;
  }
}
