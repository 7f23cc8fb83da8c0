/** The two rules that drive the script's polling loop, as pure functions.

    Frame gate: an accumulator grows by the milliseconds the clock reports
    since its previous reading; while it stays below the frame interval no
    frame is drawn.  When a frame is drawn the accumulator is zeroed, and after
    drawing it is overwritten with the milliseconds the drawing took.

    Termination: a quit event ends the loop, and so does the removal of a
    controller when no controller remains. */
module FrameGate {

  /** Frames per second the gate aims at. */
  const FPS: nat := 60

  /** Integer ceiling of a / b. */
  function CeilDiv(a: nat, b: nat): (q: nat)
    requires b > 0
    ensures q * b >= a
    ensures q == 0 || (q - 1) * b < a
  {
    (a + b - 1) / b
  }

  /** Milliseconds between frames: ceil(1000 / FPS). */
  const FRAME_EVERY_X_MILLIS: nat := CeilDiv(1000, FPS)

  lemma FrameIntervalIs17()
    ensures FRAME_EVERY_X_MILLIS == 17
  {
  }

  // ---------------------------------------------------------------------------
  // Frame gate

  /** The two clock readings of one loop iteration: the time since the
      previous reading, taken before the gate, and the time the drawing took,
      taken after a frame is drawn (unused when no frame is drawn). */
  datatype Tick = Tick(elapsed: nat, drawElapsed: nat)

  /** Whether an accumulator value lets a frame be drawn. */
  predicate Fires(accumulated: nat)
  {
    accumulated >= FRAME_EVERY_X_MILLIS
  }

  /** The accumulator after one iteration that started with `frameTime`. */
  function NextFrameTime(frameTime: nat, t: Tick): (ft: nat)
    ensures !Fires(frameTime + t.elapsed) ==> ft == frameTime + t.elapsed && ft < FRAME_EVERY_X_MILLIS
    ensures Fires(frameTime + t.elapsed) ==> ft == t.drawElapsed
  {
    var acc := frameTime + t.elapsed;
    if !Fires(acc) then acc else t.drawElapsed
  }

  /** Outcome of a run of iterations: frames drawn and final accumulator. */
  datatype GateRun = GateRun(frames: nat, frameTime: nat)

  /** Runs the gate over a sequence of iterations, in order. */
  function RunGate(frameTime: nat, ticks: seq<Tick>): GateRun
  {
    if ticks == [] then GateRun(0, frameTime)
    else
      var prev := RunGate(frameTime, ticks[..|ticks| - 1]);
      var t := ticks[|ticks| - 1];
      GateRun(prev.frames + (if Fires(prev.frameTime + t.elapsed) then 1 else 0),
              NextFrameTime(prev.frameTime, t))
  }

  /** Sum of the pre-gate clock readings. */
  function SumElapsed(ticks: seq<Tick>): nat
  {
    if ticks == [] then 0 else SumElapsed(ticks[..|ticks| - 1]) + ticks[|ticks| - 1].elapsed
  }

  /** The clock time the script reads over a run: every pre-gate reading,
      and the post-draw reading of each iteration that draws a frame (an
      iteration that draws nothing takes no post-draw reading). */
  function ReadTime(frameTime: nat, ticks: seq<Tick>): nat
  {
    if ticks == [] then 0
    else
      var prev := RunGate(frameTime, ticks[..|ticks| - 1]);
      var t := ticks[|ticks| - 1];
      ReadTime(frameTime, ticks[..|ticks| - 1]) + t.elapsed +
        (if Fires(prev.frameTime + t.elapsed) then t.drawElapsed else 0)
  }

  /** While the accumulated time stays below the interval nothing is drawn,
      and the accumulator holds exactly the time accumulated. */
  lemma {:induction false} QuietBelowInterval(frameTime: nat, ticks: seq<Tick>)
    requires frameTime + SumElapsed(ticks) < FRAME_EVERY_X_MILLIS
    ensures RunGate(frameTime, ticks) == GateRun(0, frameTime + SumElapsed(ticks))
  {
    if ticks != [] {
      QuietBelowInterval(frameTime, ticks[..|ticks| - 1]);
    }
  }

  /** The first iteration whose accumulated time reaches the interval draws
      exactly one frame, and leaves the post-draw reading in the accumulator. */
  lemma FiresOnceOnReachingInterval(frameTime: nat, ticks: seq<Tick>)
    requires ticks != []
    requires frameTime + SumElapsed(ticks[..|ticks| - 1]) < FRAME_EVERY_X_MILLIS
    requires frameTime + SumElapsed(ticks) >= FRAME_EVERY_X_MILLIS
    ensures RunGate(frameTime, ticks) == GateRun(1, ticks[|ticks| - 1].drawElapsed)
  {
    QuietBelowInterval(frameTime, ticks[..|ticks| - 1]);
  }

  /** Rate limit: every frame drawn consumed at least one interval of the
      clock time the script read, counting from the initial accumulator. */
  lemma {:induction false} FramesBoundedByTime(frameTime: nat, ticks: seq<Tick>)
    ensures var r := RunGate(frameTime, ticks);
      r.frames * FRAME_EVERY_X_MILLIS + r.frameTime <= frameTime + ReadTime(frameTime, ticks)
  {
    if ticks != [] {
      FramesBoundedByTime(frameTime, ticks[..|ticks| - 1]);
    }
  }

  // ---------------------------------------------------------------------------
  // Termination

  /** An event the loop reacts to.  A removal carries the number of
      controllers still connected when it is handled. */
  datatype Event = Quit | DeviceRemoved(remaining: nat) | OtherEvent

  /** Whether an event ends the loop. */
  predicate Closes(e: Event)
  {
    e.Quit? || (e.DeviceRemoved? && e.remaining == 0)
  }

  /** The `done` flag after handling one event. */
  function OnEvent(done: bool, e: Event): (done': bool)
    ensures e.Quit? ==> done'
    ensures e.DeviceRemoved? ==> (done' <==> done || e.remaining == 0)
    ensures e.OtherEvent? ==> done' == done
  {
    match e
    case Quit => true
    case DeviceRemoved(remaining) => if remaining == 0 then true else done
    case OtherEvent => done
  }

  /** The `done` flag after handling a batch of events in order. */
  function AfterEvents(done: bool, events: seq<Event>): bool
  {
    if events == [] then done
    else OnEvent(AfterEvents(done, events[..|events| - 1]), events[|events| - 1])
  }

  /** Some event of the batch ends the loop. */
  predicate AnyCloses(events: seq<Event>)
  {
    events != [] && (AnyCloses(events[..|events| - 1]) || Closes(events[|events| - 1]))
  }

  /** AnyCloses holds exactly when the batch holds a closing event. */
  lemma {:induction false} AnyClosesIff(events: seq<Event>)
    ensures AnyCloses(events) <==> exists i :: 0 <= i < |events| && Closes(events[i])
  {
    if events != [] {
      var init := events[..|events| - 1];
      AnyClosesIff(init);
      if AnyCloses(init) {
        var i :| 0 <= i < |init| && Closes(init[i]);
        assert events[i] == init[i];
      }
      if !Closes(events[|events| - 1]) && exists i :: 0 <= i < |events| && Closes(events[i]) {
        var i :| 0 <= i < |events| && Closes(events[i]);
        assert init[i] == events[i];
      }
    }
  }

  /** After a batch, `done` is set exactly when it was already set or some
      event of the batch ends the loop; no event ever clears it. */
  lemma {:induction false} AfterEventsIff(done: bool, events: seq<Event>)
    ensures AfterEvents(done, events) <==> done || AnyCloses(events)
  {
    if events != [] {
      AfterEventsIff(done, events[..|events| - 1]);
    }
  }
}
