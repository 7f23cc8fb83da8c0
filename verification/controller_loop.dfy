/** The controller script's polling loop.

    The script keeps three pieces of state across iterations of its
    `while not done` loop: the frame-gate accumulator `frame_time`, the
    `done` flag, and the two-slot D-pad label list `dPadMap`.  Each iteration
    handles the pending events, advances the frame gate and, when the gate
    fires, renders every connected controller's axes, buttons and hats.
    Clock readings, events and controller states come in as inputs. */
module ControllerLoop {

  import opened Options
  import opened DPad
  import opened Labels
  import opened FrameGate

  /** A connected controller as the library reports it while a frame is drawn:
      its axis values (rendered only), what the library returns when asked for
      button `i`, and its hat positions. */
  datatype Device = Device(axes: seq<real>, getButton: nat -> bool, hats: seq<Hat>)

  /** What is rendered for one controller. */
  datatype DeviceReading =
    DeviceReading(axes: seq<Reading<real>>, buttons: seq<Reading<bool>>, hats: seq<HatReading>)

  /** The inputs of one loop iteration: the events pending, the two clock
      readings, and the controllers connected when a frame is drawn. */
  datatype Iteration = Iteration(events: seq<Event>, tick: Tick, devices: seq<Device>)

  /** Every controller reports no more axes than AxisMap labels. */
  predicate AxesFit(devices: seq<Device>)
  {
    forall k :: 0 <= k < |devices| ==> |devices[k].axes| <= |AxisMap|
  }

  ghost predicate RendersDevice(d: Device, r: DeviceReading)
  {
    LabelsAxes(d.axes, r.axes) && LabelsButtons(d.getButton, r.buttons) && RendersHats(d.hats, r.hats)
  }

  /** `readings` renders `devices`, one entry per controller, in order. */
  ghost predicate RendersDevices(devices: seq<Device>, readings: seq<DeviceReading>)
  {
    |readings| == |devices| &&
    forall k :: 0 <= k < |devices| ==> RendersDevice(devices[k], readings[k])
  }

  /** The hats of all controllers, in the order the frame visits them. */
  function AllHats(devices: seq<Device>): seq<Hat>
  {
    if devices == [] then []
    else AllHats(devices[..|devices| - 1]) + devices[|devices| - 1].hats
  }

  /** The clock readings of a run of iterations. */
  function TicksOf(iterations: seq<Iteration>): (ticks: seq<Tick>)
    ensures |ticks| == |iterations|
  {
    if iterations == [] then []
    else TicksOf(iterations[..|iterations| - 1]) + [iterations[|iterations| - 1].tick]
  }

  /** The `dPadMap` content after a run of iterations that started with the
      accumulator at `frameTime` and `dPadMap` holding `prev`: only the
      iterations that draw a frame touch it. */
  ghost function DPadAfterRun(prev: seq<string>, frameTime: nat, iterations: seq<Iteration>): seq<string>
  {
    if iterations == [] then prev
    else
      var init := iterations[..|iterations| - 1];
      var last := iterations[|iterations| - 1];
      var before := DPadAfterRun(prev, frameTime, init);
      if Fires(RunGate(frameTime, TicksOf(init)).frameTime + last.tick.elapsed)
      then AfterHats(before, AllHats(last.devices))
      else before
  }

  /** Whatever the controllers report, `dPadMap` keeps its two slots, each
      holding a label the decode can produce or its initial content. */
  lemma {:induction false} DPadAfterRunShape(frameTime: nat, iterations: seq<Iteration>)
    ensures |DPadAfterRun(INITIAL_DPAD_MAP, frameTime, iterations)| == 2
    ensures Encode(DPadAfterRun(INITIAL_DPAD_MAP, frameTime, iterations)).Some?
  {
    if iterations != [] {
      var init := iterations[..|iterations| - 1];
      DPadAfterRunShape(frameTime, init);
      var hats := AllHats(iterations[|iterations| - 1].devices);
      if hats != [] {
        var h := hats[|hats| - 1];
        assert Encode(Decode(h)).Some? by {
          assert Decode(h)[0] in {"right", "left", ""};
        }
      }
    }
  }

  /** None of the first `n` iterations has an event that ends the loop. */
  predicate OpenThrough(iterations: seq<Iteration>, n: nat)
    requires n <= |iterations|
  {
    n == 0 || (OpenThrough(iterations, n - 1) && !AnyCloses(iterations[n - 1].events))
  }

  lemma {:induction false} OpenThroughIff(iterations: seq<Iteration>, n: nat)
    requires n <= |iterations|
    ensures OpenThrough(iterations, n) <==> forall i :: 0 <= i < n ==> !AnyCloses(iterations[i].events)
  {
    if n > 0 {
      OpenThroughIff(iterations, n - 1);
    }
  }

  /** The state of the loop after the first `n` iterations of a run that
      started with the accumulator at `frameTime0` and `dPadMap` holding
      `dPad0`: the frames drawn and the accumulator follow the gate, `dPadMap`
      follows the frames drawn, and `done` is set exactly when the last of
      those iterations, and none before it, had an ending event. */
  ghost predicate RunState(iterations: seq<Iteration>, frameTime0: nat, dPad0: seq<string>, n: nat,
                           frames: nat, frameTime: nat, dPad: seq<string>, done: bool)
    requires n <= |iterations|
  {
    GateRun(frames, frameTime) == RunGate(frameTime0, TicksOf(iterations[..n])) &&
    dPad == DPadAfterRun(dPad0, frameTime0, iterations[..n]) &&
    (!done ==> OpenThrough(iterations, n)) &&
    (done ==> n > 0 && OpenThrough(iterations, n - 1) && AnyCloses(iterations[n - 1].events))
  }

  /** One more iteration, run from a state where `done` is unset, moves the
      loop state from `n` iterations to `n + 1`. */
  lemma RunAdvance(iterations: seq<Iteration>, frameTime0: nat, dPad0: seq<string>, n: nat,
                   frames: nat, frameTime: nat, dPad: seq<string>,
                   drawn: bool, frameTime': nat, dPad': seq<string>, done': bool)
    requires n < |iterations|
    requires RunState(iterations, frameTime0, dPad0, n, frames, frameTime, dPad, false)
    requires drawn <==> Fires(frameTime + iterations[n].tick.elapsed)
    requires frameTime' == NextFrameTime(frameTime, iterations[n].tick)
    requires dPad' == if drawn then AfterHats(dPad, AllHats(iterations[n].devices)) else dPad
    requires done' == AfterEvents(false, iterations[n].events)
    ensures RunState(iterations, frameTime0, dPad0, n + 1,
                     frames + (if drawn then 1 else 0), frameTime', dPad', done')
  {
    var p := iterations[..n + 1];
    assert p[..n] == iterations[..n];
    assert TicksOf(p)[..n] == TicksOf(iterations[..n]);
    AfterEventsIff(false, iterations[n].events);
  }

  class Controller {
    /** Milliseconds accumulated towards the next frame. */
    var frameTime: nat
    /** Set once the loop is to end. */
    var done: bool
    /** D-pad labels: slot 0 horizontal, slot 1 vertical. */
    const dPadMap: array<string>

    ghost predicate Valid()
      reads this
    {
      dPadMap.Length == 2
    }

    constructor ()
      ensures Valid() && fresh(dPadMap)
      ensures frameTime == 0 && !done && dPadMap[..] == INITIAL_DPAD_MAP
    {
      frameTime := 0;
      done := false;
      var labels := new string[2](i => if i == 0 then "right" else "down");
      assert labels[..] == [labels[0], labels[1]];
      dPadMap := labels;
    }

    /** Drains the pending events in order, setting `done` on a quit event
        or on a removal that leaves no controller connected. */
    method HandleEvents(events: seq<Event>)
      modifies this`done
      ensures done == AfterEvents(old(done), events)
    {
      var i := 0;
      while i < |events|
        invariant 0 <= i <= |events|
        invariant done == AfterEvents(old(done), events[..i])
      {
        match events[i] {
          case Quit =>
            done := true;
          case DeviceRemoved(remaining) =>
            if remaining == 0 {
              done := true;
            }
          case OtherEvent =>
        }
        assert events[..i + 1][..i] == events[..i];
        i := i + 1;
      }
      assert events[..i] == events;
    }

    /** Renders every connected controller: its labelled axes, its first
        ACTUAL_BUTTONS_IN_USE labelled buttons, and its hats, decoding each
        hat into `dPadMap`. */
    method Draw(devices: seq<Device>) returns (readings: seq<DeviceReading>)
      requires Valid() && AxesFit(devices)
      modifies dPadMap
      ensures RendersDevices(devices, readings)
      ensures dPadMap[..] == AfterHats(old(dPadMap[..]), AllHats(devices))
    {
      readings := [];
      var k := 0;
      while k < |devices|
        invariant 0 <= k <= |devices|
        invariant RendersDevices(devices[..k], readings)
        invariant dPadMap[..] == AfterHats(old(dPadMap[..]), AllHats(devices[..k]))
      {
        var d := devices[k];
        var axes, ok := LabelAxes(d.axes);
        assert ok;
        assert d.axes[..|d.axes|] == d.axes;
        var buttons := LabelButtons(d.getButton);
        ghost var before := dPadMap[..];
        var hats := DecodeHats(dPadMap, d.hats);
        AfterHatsAppend(old(dPadMap[..]), AllHats(devices[..k]), d.hats);
        assert devices[..k + 1][..k] == devices[..k];
        readings := readings + [DeviceReading(axes, buttons, hats)];
        k := k + 1;
      }
      assert devices[..k] == devices;
    }

    /** One iteration of the loop body: events, then the frame gate, then,
        when the gate fires, a frame. */
    method Step(it: Iteration) returns (frame: Option<seq<DeviceReading>>)
      requires Valid() && AxesFit(it.devices)
      modifies this, dPadMap
      ensures Valid()
      ensures done == AfterEvents(old(done), it.events)
      ensures frame.Some? <==> Fires(old(frameTime) + it.tick.elapsed)
      ensures frameTime == NextFrameTime(old(frameTime), it.tick)
      ensures frame.Some? ==> RendersDevices(it.devices, frame.value)
      ensures dPadMap[..] == if frame.Some? then AfterHats(old(dPadMap[..]), AllHats(it.devices))
                             else old(dPadMap[..])
    {
      HandleEvents(it.events);
      frameTime := frameTime + it.tick.elapsed;
      if frameTime < FRAME_EVERY_X_MILLIS {
        return None;
      }
      frameTime := 0;
      var readings := Draw(it.devices);
      frameTime := it.tick.drawElapsed;
      frame := Some(readings);
    }

    /** The loop: runs iterations while `done` is unset and inputs remain.
        Returns how many iterations ran and how many frames were drawn. */
    method Run(iterations: seq<Iteration>) returns (consumed: nat, frames: nat)
      requires Valid() && !done
      requires forall i :: 0 <= i < |iterations| ==> AxesFit(iterations[i].devices)
      modifies this, dPadMap
      ensures Valid()
      ensures consumed <= |iterations|
      ensures done <==> consumed > 0 && AnyCloses(iterations[consumed - 1].events)
      ensures !done ==> consumed == |iterations|
      ensures forall i :: 0 <= i < consumed - 1 ==> !AnyCloses(iterations[i].events)
      ensures GateRun(frames, frameTime) == RunGate(old(frameTime), TicksOf(iterations[..consumed]))
      ensures dPadMap[..] == DPadAfterRun(old(dPadMap[..]), old(frameTime), iterations[..consumed])
    {
      ghost var ft0, dp0 := frameTime, dPadMap[..];
      consumed, frames := 0, 0;
      while consumed < |iterations| && !done
        invariant Valid()
        invariant 0 <= consumed <= |iterations|
        invariant RunState(iterations, ft0, dp0, consumed, frames, frameTime, dPadMap[..], done)
      {
        var it := iterations[consumed];
        ghost var ftBefore, dpBefore := frameTime, dPadMap[..];
        var frame := Step(it);
        RunAdvance(iterations, ft0, dp0, consumed, frames, ftBefore, dpBefore,
                   frame.Some?, frameTime, dPadMap[..], done);
        if frame.Some? {
          frames := frames + 1;
        }
        consumed := consumed + 1;
      }
      OpenThroughIff(iterations, if done then consumed - 1 else consumed);
    }
  }
}
