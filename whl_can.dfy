/** The KeyboardController class of whl_can.py: mutable fields updated in
    place by its methods, each proved against the state machine of
    KeyboardSpec. The lock is a no-op here (the model is sequential) and the
    blocking keyboard read is replaced by a finite sequence of events. */
module WhlCan {
  import opened KeyboardSpec

  /** The control command message: the two fields the controller writes. */
  class ControlCommand {
    var speed: real
    var steeringAngle: int

    /** A fresh message reads zero in both fields. */
    constructor ()
      ensures speed == 0.0 && steeringAngle == 0
    {
      speed := 0.0;
      steeringAngle := 0;
    }
  }

  class KeyboardController {
    var running: bool
    var speed: real
    var steeringAngle: int
    /** The message object is created once and only its fields change. */
    const controlCmdMsg: ControlCommand

    /** The controller's state as a value of the state machine. */
    function Abs(): State
      reads this, controlCmdMsg
    {
      State(running, speed, steeringAngle, Command(controlCmdMsg.speed, controlCmdMsg.steeringAngle))
    }

    /** A fresh controller is running with both accumulators zero. */
    constructor ()
      ensures fresh(controlCmdMsg)
      ensures running && speed == 0.0 && steeringAngle == 0
      ensures Abs() == Initial() && Mirrors(Abs())
    {
      running := true;
      controlCmdMsg := new ControlCommand();
      speed := 0.0;
      steeringAngle := 0;
    }

    /** The record as last refreshed (a copy: the aliasing of the message
        object is not modelled). */
    method GetControlCmd() returns (cmd: Command)
      ensures cmd.speed == controlCmdMsg.speed && cmd.steeringAngle == controlCmdMsg.steeringAngle
    {
      cmd := Command(controlCmdMsg.speed, controlCmdMsg.steeringAngle);
    }

    /** Clears the run flag and changes nothing else; a second call changes nothing. */
    method Stop()
      modifies this`running
      ensures !running
      ensures Abs() == Stopped(old(Abs()))
    {
      running := false;
    }

    /** Copies the accumulators into the message. */
    method FillControlCmd()
      modifies controlCmdMsg
      ensures controlCmdMsg.speed == speed && controlCmdMsg.steeringAngle == steeringAngle
      ensures Abs() == Filled(old(Abs())) && Mirrors(Abs())
    {
      controlCmdMsg.speed := speed;
      controlCmdMsg.steeringAngle := steeringAngle;
    }

    method MoveForward()
      modifies this`speed
      ensures speed == old(speed) + SPEED_DELTA
      ensures Abs() == Applied(Forward, old(Abs()))
    {
      speed := speed + SPEED_DELTA;
    }

    method MoveBackward()
      modifies this`speed
      ensures speed == old(speed) - SPEED_DELTA
      ensures Abs() == Applied(Backward, old(Abs()))
    {
      speed := speed - SPEED_DELTA;
    }

    method TurnLeft()
      modifies this`steeringAngle
      ensures steeringAngle == old(steeringAngle) + STEERING_ANGLE_DELTA
      ensures Abs() == Applied(Left, old(Abs()))
    {
      steeringAngle := steeringAngle + STEERING_ANGLE_DELTA;
    }

    method TurnRight()
      modifies this`steeringAngle
      ensures steeringAngle == old(steeringAngle) - STEERING_ANGLE_DELTA
      ensures Abs() == Applied(Right, old(Abs()))
    {
      steeringAngle := steeringAngle - STEERING_ANGLE_DELTA;
    }

    /** Calls the handler the dispatch table holds for `name`; the loop only
        calls it for a key of the table. */
    method HandleKey(name: string)
      requires name in CONTROL_MAP
      modifies this`speed, this`steeringAngle
      ensures Abs() == Applied(CONTROL_MAP[name], old(Abs()))
    {
      match CONTROL_MAP[name]
      case Forward => MoveForward();
      case Backward => MoveBackward();
      case Left => TurnLeft();
      case Right => TurnRight();
    }

    /** The listener loop: while the run flag is set and an event is left,
        read the next event; escape stops the controller and leaves the loop
        without refreshing the record; a key of the dispatch table applies
        its handler; every other event only refreshes the record. Returns
        the number of events read. */
    method Listen(events: seq<Event>) returns (consumed: nat)
      modifies this, controlCmdMsg
      ensures consumed == Consumed(old(Abs()), events) && consumed <= |events|
      ensures Abs() == Run(old(Abs()), events)
    {
      consumed := 0;
      while running && consumed < |events|
        invariant consumed <= |events|
        invariant Run(old(Abs()), events) == Run(Abs(), events[consumed..])
        invariant Consumed(old(Abs()), events) == consumed + Consumed(Abs(), events[consumed..])
        decreases |events| - consumed
      {
        ghost var rest := events[consumed..];
        var event := events[consumed];
        consumed := consumed + 1;
        assert rest[0] == event && rest[1..] == events[consumed..];
        if event.KeyDown? {
          if event.name == ESC_KEY {
            Stop();
            RunStopped(Abs(), events[consumed..]);
            break;
          } else if event.name in CONTROL_MAP {
            HandleKey(event.name);
          }
        }
        FillControlCmd();
      }
      if consumed < |events| {
        RunStopped(Abs(), events[consumed..]);
      } else {
        assert events[consumed..] == [];
      }
    }
  }
}
