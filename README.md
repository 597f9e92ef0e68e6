# whl-can keyboard controller, modelled in Dafny

`whl_can.py` turns raw keyboard events into a vehicle control command
(speed and steering angle) that a publish loop sends on a message bus. Its one
piece of logic is `KeyboardController`: a run flag, two accumulators (`speed`,
`steering_angle`), a dispatch table from the keys `w`, `s`, `a`, `d` to four
handlers, and a `ControlCommand` message whose two fields are refreshed from
the accumulators after each event the listener loop handles other than
escape.

The model has two modules:

- `KeyboardSpec` (`keyboard_spec.dfy`) gives the controller's state as a value
  (`State`), one iteration of the listener loop as `Step`, the loop over a
  finite stream of events as `Run`, and the number of events the loop reads as
  `Consumed`. The lemmas state the step rules for each kind of event, that
  escape ends the loop and freezes the state, that the record keeps mirroring
  the accumulators, and the closed form of speed and steering angle after any
  run without escape (no clamping).
- `WhlCan` (`whl_can.dfy`) is the class itself: `KeyboardController` with the
  fields `running`, `speed`, `steeringAngle` and the message object
  `controlCmdMsg` (a `ControlCommand` object whose fields are written in
  place). Each method's contract ties the new state to the old one through
  `KeyboardSpec`; `Listen` is the `while self.running` loop with its early
  `break`, proved equal to `Run`.

Modelling decisions:

- `keyboard.read_event()` is replaced by a `seq<Event>`; each iteration
  consumes its next element. When the sequence is exhausted the loop ends,
  where the real call would block for the next key.
- `speed` is a Dafny `real`, so `SPEED_DELTA` = 0.1 is exact. The Python float
  accumulates rounding error on repeated `+= 0.1`; the model does not.
- `steering_angle` is an `int`: the source starts it at the integer 0 and
  changes it by the integer `STEERING_ANGLE_DELTA` = 1.
- The record is refreshed after every event except escape, key-ups included
  (whl_can.py:80); on escape the `break` at whl_can.py:76 skips the refresh.
- A newly created `ControlCommand` message reads zero in both fields (the
  default of an unset protobuf numeric field).
- `control_map` is a constant map from key name to an `Action` tag; calling
  the stored bound method becomes a `match` on the tag (`HandleKey`).
- The lock is a no-op: the model is sequential.

## Model

| member | source | states |
|---|---|---|
| WhlCan.KeyboardController.constructor | whl_can.py:35-48 | a new controller is running with speed 0 and steering angle 0, its message reads 0/0, so the record mirrors the accumulators |
| WhlCan.ControlCommand.constructor | whl_can.py:37 | a new message has both fields zero |
| WhlCan.KeyboardController.GetControlCmd | whl_can.py:53-56 | returns the message's speed and steering angle as last refreshed, changing nothing |
| WhlCan.KeyboardController.Stop | whl_can.py:63-67 | clears the run flag and modifies no other field (the frame is `running` alone) |
| WhlCan.KeyboardController.Listen | whl_can.py:69-80 | the final state equals `Run` of the initial state over the events, and the number of events read equals `Consumed` |
| WhlCan.KeyboardController.FillControlCmd | whl_can.py:82-86 | the message's fields equal the accumulators afterwards; run flag and accumulators unchanged |
| WhlCan.KeyboardController.MoveForward | whl_can.py:88-91 | speed grows by SPEED_DELTA; nothing else changes |
| WhlCan.KeyboardController.MoveBackward | whl_can.py:93-96 | speed shrinks by SPEED_DELTA; nothing else changes |
| WhlCan.KeyboardController.TurnLeft | whl_can.py:98-102 | steering angle grows by STEERING_ANGLE_DELTA; nothing else changes |
| WhlCan.KeyboardController.TurnRight | whl_can.py:104-108 | steering angle shrinks by STEERING_ANGLE_DELTA; nothing else changes |
| WhlCan.KeyboardController.HandleKey | whl_can.py:77-79 | for a key of the dispatch table, applies exactly the handler the table maps it to |
| KeyboardSpec.StepSpeedKeys | whl_can.py:88-96 | a key-down of `w` adds 0.1 to speed, of `s` subtracts 0.1; steering and run flag unchanged, record refreshed |
| KeyboardSpec.StepSteeringKeys | whl_can.py:98-108 | a key-down of `a` adds 1 to the steering angle, of `d` subtracts 1; speed and run flag unchanged, record refreshed |
| KeyboardSpec.StepIgnored | whl_can.py:73-80 | key-ups and key-downs of keys neither `esc` nor in the table leave run flag and accumulators unchanged but refresh the record |
| KeyboardSpec.StepEsc | whl_can.py:73-76 | a key-down of `esc` clears the run flag and leaves accumulators and record as they were (no refresh) |
| KeyboardSpec.StepNotEsc | whl_can.py:71-80 | after any event but escape the record mirrors the accumulators; the run flag is cleared exactly by escape |
| KeyboardSpec.StoppedIdempotent | whl_can.py:63-67 | stopping twice equals stopping once, and a stopped state is not running |
| KeyboardSpec.RunStopped | whl_can.py:71 | the loop checks the flag first: a stopped controller reads no event and changes nothing |
| KeyboardSpec.RunAppend | whl_can.py:71-80 | running the loop over a concatenation equals running it over each part in turn |
| KeyboardSpec.RunEscStops | whl_can.py:71-76 | after an escape key-down no later event is processed: the final state is the state just before escape with the flag cleared |
| KeyboardSpec.ConsumedSpec | whl_can.py:71-80 | the loop reads at most all events, the state depends only on those read, it stops early only when stopped, and a running controller stops only on an escape which is the last event read and the first escape of the stream |
| KeyboardSpec.RunPreservesMirrors | whl_can.py:76-86 | if the record mirrors the accumulators before the loop, it does after it |
| KeyboardSpec.RunTotals | whl_can.py:77-108 | with no escape, speed moves by 0.1 × (#`w` − #`s`) key-downs and the angle by (#`a` − #`d`), unclamped; the controller stays running and the record mirrors the accumulators once an event was read |
| KeyboardSpec.SpeedAfterPresses | whl_can.py:88-96 | from a fresh controller, n presses of `w` give speed n × 0.1 and n presses of `s` give −n × 0.1 |
| KeyboardSpec.SteeringAfterPresses | whl_can.py:98-108 | from a fresh controller, n presses of `a` give angle n and n presses of `d` give −n |
| KeyboardSpec.ScenarioForwardForwardLeftBack | whl_can.py:71-108 | `w`,`w`,`a`,`s` from a fresh controller give speed 0.1, angle 1, still running, record 0.1/1 |
| KeyboardSpec.ScenarioEscFirst | whl_can.py:71-76 | escape as the first event stops a fresh controller with everything still zero, whatever follows |

## Left out

- `start` and the daemon thread (whl_can.py:58-61): concurrency; `Listen` is the thread's body run sequentially.
- `threading.Lock`: with one sequential loop there is nothing to exclude; the torn-read freedom it provides is not modelled.
- `keyboard.read_event()` (whl_can.py:72): a blocking OS input source, replaced by the input sequence; blocking when no key comes is not modelled.
- The `cyber` node, writer, `time.sleep` and the `__main__` publish loop with its `KeyboardInterrupt` handling (whl_can.py:111-127): I/O and a foreign framework.
- The protobuf `ControlCommand` class beyond its two written fields; `GetControlCmd` returns a copy, so the aliasing of the returned message object with the controller's is not captured.
- Logging calls: no effect on state.
- IEEE floating-point rounding of the repeated `+= 0.1` on speed: speed is exact `real`.
