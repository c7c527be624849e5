/** How a playback goes on: what one callback does as a whole, and that a playback whose generator has
    stopped, or that was killed, comes to its announced end. */
module PlaybackEndings {
  import opened Playback

  // ---- the flags ----

  /** Stopping and killing are possible at any time, and the flags tell what has happened. */
  lemma {:induction false} FlagsAreTold(s: State, events: seq<Event>)
    requires IsRun(s, events)
    ensures var t := After(s, events);
      && (t.stopped <==> s.stopped || Stop in events) && (t.killed <==> s.killed || Kill in events)
      && (t.started <==> s.started || exists e :: e in events && e.Put?)
      && Enabled(t, Stop) && Enabled(t, Kill)
    decreases |events|
  {
    if events != [] {
      assert events == [events[0]] + events[1..];
      FlagsAreTold(Apply(s, events[0]), events[1..]);
      assert (exists e :: e in events && e.Put?) <==> events[0].Put? || exists e :: e in events[1..] && e.Put?;
    }
  }

  // ---- a callback as a whole ----

  /** The steps of a callback that nothing disturbs. */
  function Callback(s: State, frames: nat): seq<Event> {
    if !s.killed && s.started && s.buffer == [] then [Begin, LookAtStopped, Write(frames)] else [Begin, Write(frames)]
  }

  /** The end is announced by a callback of a killed player, and by one that finds a stopped generator
      and an empty queue; otherwise not. */
  predicate Announces(s: State) {
    s.killed || (s.started && s.stopped && s.buffer == [])
  }

  lemma Steps(s: State, e: Event, rest: seq<Event>)
    requires Enabled(s, e) && IsRun(Apply(s, e), rest)
    ensures IsRun(s, [e] + rest) && After(s, [e] + rest) == After(Apply(s, e), rest)
  {
    Prepend(s, e, Apply(s, e), rest, After(Apply(s, e), rest));
  }

  /** Whenever the device calls, the callback comes to its end; it sends as many frames as asked for,
      first the samples that are queued and then silence, and announces the end exactly as it
      should. */
  lemma CallbackIsWhole(s: State, frames: nat)
    requires s.turn.Outside?
    ensures IsRun(s, Callback(s, frames))
    ensures After(s, Callback(s, frames))
         == s.(buffer := Taken(s.buffer, frames), output := s.output + Written(s, frames),
               finished := s.finished || Announces(s))
  {
    var begun := Apply(s, Begin);
    if begun.turn.SawEmpty? {
      var looked := Apply(begun, LookAtStopped);
      Steps(looked, Write(frames), []);
      Steps(begun, LookAtStopped, [Write(frames)]);
      Steps(s, Begin, [LookAtStopped, Write(frames)]);
      assert [Begin] + [LookAtStopped, Write(frames)] == Callback(s, frames);
    } else {
      Steps(begun, Write(frames), []);
      Steps(s, Begin, [Write(frames)]);
      assert [Begin] + [Write(frames)] == Callback(s, frames);
    }
  }

  // ---- the end comes ----

  /** Callbacks one after the other. */
  ghost predicate OnlyCallbacks(events: seq<Event>) {
    forall e :: e in events ==> e.Begin? || e.LookAtStopped? || e.Write?
  }

  lemma {:induction false} TakingShrinks(queue: seq<Chunk>, frames: nat)
    requires frames > 0 && queue != []
    ensures |Samples(Taken(queue, frames))| + |Taken(queue, frames)| < |Samples(queue)| + |queue|
    decreases |queue|
  {
    if frames <= |queue[0]| {
      TakenSamples(queue, frames);
      assert |Samples(queue)| >= |queue[0]|;
    } else if |queue| > 1 {
      TakingShrinks(queue[1..], frames - |queue[0]|);
    } else {
      assert queue[1..] == [];
    }
  }

  lemma Follow(s: State, first: seq<Event>, second: seq<Event>)
    requires IsRun(s, first) && IsRun(After(s, first), second)
    ensures IsRun(s, first + second) && After(s, first + second) == After(After(s, first), second)
    decreases |first|
  {
    if first == [] {
      assert first + second == second;
    } else {
      Follow(Apply(s, first[0]), first[1..], second);
      Steps(s, first[0], first[1..] + second);
      assert [first[0]] + (first[1..] + second) == first + second;
    }
  }

  /** A playback whose generator has stopped needs nothing but further callbacks, of whatever size, to
      be heard to the last sample and announced. */
  lemma {:induction false} EndComes(s: State, frames: nat) returns (events: seq<Event>)
    requires s.turn.Outside? && s.started && s.stopped && !s.killed && frames > 0 && Conserved(s)
    ensures OnlyCallbacks(events) && IsRun(s, events)
    ensures After(s, events).finished && Audible(After(s, events).output) == s.generated
    decreases |Samples(s.buffer)| + |s.buffer|
  {
    events := Callback(s, frames);
    CallbackIsWhole(s, frames);
    RunConserves(s, events);
    var t := After(s, events);
    if s.buffer == [] {
      assert Taken(s.buffer, frames) == [];
      assert Audible(t.output) + [] == Audible(t.output);
    } else {
      TakingShrinks(s.buffer, frames);
      var rest := EndComes(t, frames);
      Follow(s, events, rest);
      events := events + rest;
    }
  }

  /** A killed player announces the end with the next callback, whatever is queued. */
  lemma KillIsHeeded(s: State, frames: nat)
    requires s.turn.Outside?
    ensures Enabled(s, Kill) && Apply(s, Kill).turn.Outside?
    ensures IsRun(Apply(s, Kill), [Begin, Write(frames)])
    ensures After(Apply(s, Kill), [Begin, Write(frames)]).finished
  {
    CallbackIsWhole(Apply(s, Kill), frames);
  }
}
