# Rover controller input reader — Dafny model

The rover control prototype polls a gamepad in a `while not done` loop. It
handles pending window and device events, and it rate-limits drawing with a
millisecond accumulator. Each frame it renders, for every connected controller,
the axes and buttons named by fixed label tables and the D-pad (hat) position
decoded into direction labels. Its requirements docstring also fixes the text
format of the two command packets the rover is meant to receive. No code in the
script builds those packets yet.

This project models that core in Dafny:

- `dpad.dfy` (module `DPad`): the per-component hat decode, its inverse, and
  the hat loop. The loop writes into the two-slot `dPadMap`, modelled as a
  2-element array.
- `labels.dfy` (module `Labels`): the axis and button label tables and the two
  labelling loops. The axis loop reports the index error a seventh axis
  causes. It also proves that a label identifies its input.
- `frame_gate.dfy` (module `FrameGate`): the frame-gate rule and the
  loop-termination rule as pure functions, with lemmas over whole runs.
- `controller_loop.dfy` (module `ControllerLoop`): a `Controller` class. Its
  fields are `frameTime`, `done` and `dPadMap`. `Step` is one loop body and
  `Run` is the loop itself. Each is proved against the pure rules above.
- `packet.dfy` (module `Packet`): the documented packet grammar. `Format`
  builds a packet and `Parse` reads one back, with a round-trip proof.
- `option.dfy` (module `Options`): the shared `Option` type.

Inputs that come from the library are parameters:
- The clock readings are the `Tick` of each iteration. One is read before the
  gate; the other, after a frame is drawn.
- The events of each iteration are a list of `Event`. A removal event carries
  the controller count the script reads when it handles that event.
- Each controller is a `Device`: its axis values, what the library answers
  for button `i`, and its hat positions.

Three behaviours of the code are easy to misread:

- After a frame, the code (line 185) overwrites the accumulator with the clock
  reading taken after drawing. It does not keep the time above the interval.
  `NextFrameTime` does the same.
- The code indexes `axisMap` with every reported axis index. On a seventh axis
  it raises an index error, after the first six axes are rendered.
  `LabelAxes` returns `ok` false in exactly that case, with the six readings
  rendered before the error.
- Once `done` is set, the code still finishes the current iteration: the gate
  and, if it fires, a frame. `Step` models that, and `Run` checks `done` only
  at the top of each iteration.

## Model

| member | source | states |
|---|---|---|
| DPad.Horizontal | Xbox_Controller_Mapping_Script.py:169-171 | the horizontal label is "right" iff x = 1, "left" iff x = -1, and "" iff x is neither |
| DPad.Vertical | Xbox_Controller_Mapping_Script.py:172-174 | the vertical label is "up" iff y = 1, "down" iff y = -1, and "" iff y is neither |
| DPad.Decode | Xbox_Controller_Mapping_Script.py:169-174 | one hat yields exactly two labels: a horizontal one in {right, left, ""} and a vertical one in {up, down, ""} |
| DPad.DecodeRoundTrip | Xbox_Controller_Mapping_Script.py:169-174 | for every position with components in {-1, 0, 1}, re-encoding the two labels gives the hat back |
| DPad.EncodeRoundTrip | Xbox_Controller_Mapping_Script.py:169-174 | every label pair that encodes to a hat is exactly the decode of that hat, and that hat is a valid position |
| DPad.DecodeInjective | Xbox_Controller_Mapping_Script.py:169-174 | two valid hat positions with the same labels are the same position |
| DPad.ComponentsIndependent | Xbox_Controller_Mapping_Script.py:169-174 | the horizontal label depends only on hat[0] and the vertical label only on hat[1] |
| DPad.AfterHatsAppend | Xbox_Controller_Mapping_Script.py:40 | `dPadMap` is shared module state: running the hat loop over one list and then another leaves what one run over the concatenation leaves |
| DPad.DecodeHats | Xbox_Controller_Mapping_Script.py:166-176 | after the hat loop, `dPadMap` holds the decode of the last hat, or is unchanged when there are no hats; each hat is rendered with its own labels |
| Labels.LabelAxes | Xbox_Controller_Mapping_Script.py:142-148 | the axis loop completes iff the device reports at most six axes; axis i is rendered with label `axisMap[i]` and its value, in order, for every reported index, or for the first six when a seventh axis stops the loop with an index error |
| Labels.LabelButtons | Xbox_Controller_Mapping_Script.py:152-158 | exactly the first ACTUAL_BUTTONS_IN_USE = 10 buttons are rendered, whatever count the device reports; button i gets `buttonMap[i]`, and every index is in the table |
| Labels.ButtonLabelsIdentifyIndex | Xbox_Controller_Mapping_Script.py:38 | the button labels are distinct, so a rendered button label identifies the index it was read from |
| Labels.AxisLabelsIdentifyIndex | Xbox_Controller_Mapping_Script.py:39 | the axis labels are distinct, so a rendered axis label identifies the index it was read from |
| FrameGate.CeilDiv | Xbox_Controller_Mapping_Script.py:37 | the integer ceiling of a / b: the least q with q * b >= a |
| FrameGate.FrameIntervalIs17 | Xbox_Controller_Mapping_Script.py:36-37 | FRAME_EVERY_X_MILLIS = ceil(1000 / 60) = 17 |
| FrameGate.NextFrameTime | Xbox_Controller_Mapping_Script.py:101-106 | below the interval, the accumulator keeps the accumulated time (still under 17); at or above it, the accumulator ends up holding the post-draw clock reading |
| FrameGate.QuietBelowInterval | Xbox_Controller_Mapping_Script.py:101-103 | while the accumulated time stays under 17 ms, no frame is drawn and the accumulator holds the sum of the readings |
| FrameGate.FiresOnceOnReachingInterval | Xbox_Controller_Mapping_Script.py:101-106 | the first iteration whose accumulated time reaches 17 ms draws exactly one frame and leaves the post-draw reading in the accumulator |
| FrameGate.FramesBoundedByTime | Xbox_Controller_Mapping_Script.py:101-106 | rate limit: frames drawn × 17 plus the final accumulator never exceed the initial accumulator plus the clock time the script reads (every pre-gate reading, and the post-draw reading of each iteration that draws) |
| FrameGate.OnEvent | Xbox_Controller_Mapping_Script.py:86-96 | QUIT sets `done`; a removal sets `done` iff no controller remains, and otherwise leaves it unchanged; other events leave it unchanged |
| FrameGate.AnyClosesIff | Xbox_Controller_Mapping_Script.py:87-95 | a batch ends the loop iff some event in it is QUIT or a removal leaving zero controllers |
| FrameGate.AfterEventsIff | Xbox_Controller_Mapping_Script.py:86-96 | after a batch of events, `done` is set iff it was already set or some event was QUIT or a removal leaving zero controllers |
| ControllerLoop.DPadAfterRunShape | Xbox_Controller_Mapping_Script.py:40 | over any run, `dPadMap` keeps exactly two slots, starting from ["right", "down"], and always holds a pair of labels that the decode can produce |
| ControllerLoop.Controller.constructor | Xbox_Controller_Mapping_Script.py:70-80 | the loop starts with `frame_time` = 0, `done` false and `dPadMap` = ["right", "down"] |
| ControllerLoop.Controller.HandleEvents | Xbox_Controller_Mapping_Script.py:86-96 | draining the events leaves `done` as the termination rule gives it |
| ControllerLoop.Controller.Draw | Xbox_Controller_Mapping_Script.py:110-178 | every connected controller is rendered in order, with labelled axes, its first 10 labelled buttons and decoded hats; `dPadMap` ends as the decode of the last hat of all controllers, or unchanged |
| ControllerLoop.Controller.Step | Xbox_Controller_Mapping_Script.py:83-185 | one loop body: `done` follows the termination rule; a frame is drawn iff the accumulated time reaches 17; the new `frameTime` is the gate's; `dPadMap` changes only in a drawn frame |
| ControllerLoop.Controller.Run | Xbox_Controller_Mapping_Script.py:83-185 | the loop stops right after the first iteration whose events end it. Frames drawn, the final accumulator and `dPadMap` agree with the gate and decode rules applied to the iterations that ran |
| Packet.DecimalRoundTrip | Xbox_Controller_Mapping_Script.py:15-17 | every integer field's decimal text reads back as that integer |
| Packet.SplitJoin | Xbox_Controller_Mapping_Script.py:15-17 | joining separator-free fields with single underscores and splitting on underscores gives the fields back |
| Packet.FormatGrammar | Xbox_Controller_Mapping_Script.py:15-17 | splitting a packet on `_` gives its tag and then exactly six decimal fields. Drive order: leftWheel1, rightWheel1, leftWheel2, rightWheel2, leftWheel3, rightWheel3. Arm order: upperExtender, lowerExtender, screwdriver, claw, hoist, swivel |
| Packet.FormatShape | Xbox_Controller_Mapping_Script.py:15-17 | a packet begins with its tag and one underscore and does not end with an underscore |
| Packet.FormatParseRoundTrip | Xbox_Controller_Mapping_Script.py:15-17 | parsing a formatted Drive or Arm packet gives back the command |
| Packet.FormatInjective | Xbox_Controller_Mapping_Script.py:15-17 | two different commands never produce the same packet text |

## Left out

- Rendering is not modelled. That covers the `TextPrint` class, filling and
  flipping the screen, fonts, and the `{:>6.3f}` float formatting of axis
  values. The model records what each frame renders (labels and values) as a
  list of readings, not as text on a screen.
- Axis values are floats the script only displays. They are `real` values
  the model never inspects.
- Library calls are not modelled: `pygame.init`, `joystick.init`, creating
  `Joystick` objects, the joystick name, and the `get_instance_id` /
  `get_guid` probing with its `AttributeError` fallback. These only feed the
  display.
- The clock and the event queue are not modelled. Their readings are inputs.
- The "Controller disconnected" console message is not modelled; it is output
  only.
- Labels.LabelButtons: asks the device for buttons 0 to 9 through a total
  function. It does not model the library rejecting a button index beyond the
  count the device reports.
- ControllerLoop.Controller.Draw: covers only frames in which every
  controller reports at most six axes. With more axes, the script stops with
  an index error partway through the frame; `LabelAxes` models that error, but
  the loop does not carry it further. ControllerLoop.Controller.Step and
  ControllerLoop.Controller.Run carry the same precondition.
- The `socket` import is unused: the script never sends anything, so there
  is no transport to model.
- The packets come only from the requirements docstring. No code in the
  script formats them, and nothing prints or sends them. Negative values use
  a leading minus sign, as Python's `str(int)` writes them.
- FOR_DOCUMENTATION_ONLY_pygame_sdl2.py is not part of this model. It repeats
  the same loop, events and frame gate through the game-controller API, with
  no labels and no D-pad decode. Its `CtrlRead` function is never called.
- main.py is not part of this model. It holds only the same requirements
  docstring.
- Nothing here models drive modes, stick-to-motor scaling, edge-triggered
  buttons, or choosing an active controller. None of them exists in the
  source.
