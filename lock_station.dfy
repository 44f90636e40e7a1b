/**
  The entrance-lock sketch (StationSample4): two mirrored servos form the lock, a keypad on an
  analog pin asks for lock or unlock, a contact sensor reports the door, and a flag `local` makes
  the station ignore the next hub command on the lock topic after a keypad change.
*/
module LockStation {
  import opened Arduino

  const LOCK_TOPIC := "entrance/lock"
  const DOOR_TOPIC := "entrance/door"

  /** The keypad request, in declaration order, so that 0, 1 and 2 are its three values. */
  datatype KeypadState = STANDBY | LOCK | UNLOCK

  /** The keypad reading `map(analogRead(KEYPAD_PIN), 0, 1023, 0, 2)` taken as the enum value. */
  function KeypadOf(v: int): (k: KeypadState)
    requires 0 <= v <= 2
    ensures k == STANDBY <==> v == 0
    ensures k == LOCK <==> v == 1
  {
    if v == 0 then STANDBY else if v == 1 then LOCK else UNLOCK
  }

  datatype Servo = Lock1 | Lock2

  /** What the sketch does to the outside world. */
  datatype Effect =
    | ServoWrite(servo: Servo, angle: int)
    | Publish(topic: string, payload: string)
    | Subscribe(topic: string)

  function BoolText(b: bool): string {
    if b then "true" else "false"
  }

  /**
    The two servo writes of `setLock`: the second servo is mounted inverted, so its angle is always
    the mirror image of the first, and the first is at 180 exactly when locked.
  */
  function LockWrites(state: bool): (e: seq<Effect>)
    ensures |e| == 2 && e[0].ServoWrite? && e[1].ServoWrite?
    ensures e[0].servo == Lock1 && e[1].servo == Lock2
    ensures e[0].angle + e[1].angle == 180
    ensures e[0].angle == 180 <==> state
  {
    [ServoWrite(Lock1, if state then 180 else 0), ServoWrite(Lock2, if state then 0 else 180)]
  }

  /** The station's global state and its outputs so far, in order. */
  class Station {
    var local: bool
    var request: KeypadState
    var effects: seq<Effect>

    /** Globals start zeroed: no pending echo, request STANDBY, nothing done yet. */
    constructor()
      ensures !local && request == STANDBY && effects == []
    {
      local := false;
      request := STANDBY;
      effects := [];
    }

    /** `setupDevice`: subscribe to the lock topic (pin modes and servo attachment are hardware). */
    method SetupDevice()
      modifies this
      ensures effects == old(effects) + [Subscribe(LOCK_TOPIC)]
      ensures local == old(local) && request == old(request)
    {
      effects := effects + [Subscribe(LOCK_TOPIC)];
    }

    /**
      `setLock`: both servos move; only a keypad change reports the state, on the door topic as
      the code is written, and arms `local`.
    */
    method SetLock(state: bool, fromKeypad: bool)
      modifies this
      ensures effects == old(effects) + LockWrites(state) +
                         (if fromKeypad then [Publish(DOOR_TOPIC, BoolText(state))] else [])
      ensures local == (old(local) || fromKeypad)
      ensures request == old(request)
    {
      effects := effects + [ServoWrite(Lock1, if state then 180 else 0)];
      effects := effects + [ServoWrite(Lock2, if state then 0 else 180)];
      if !fromKeypad {
        return;
      }
      effects := effects + [Publish(DOOR_TOPIC, BoolText(state))];
      local := true;
    }

    /**
      `readSensor`: report the door (closed when the active-low pin reads LOW), then read the
      keypad; LOCK and UNLOCK set the lock from the keypad, STANDBY does nothing more.
    */
    method ReadSensor(doorPinHigh: bool, analog: int, arduinoMap: MapFn)
      requires 0 <= analog <= 1023 && WithinOneUnit(arduinoMap)
      modifies this
      ensures 0 <= arduinoMap(analog, 0, 1023, 0, 2) <= 2
      ensures request == KeypadOf(arduinoMap(analog, 0, 1023, 0, 2))
      ensures analog == 0 ==> request == STANDBY
      ensures analog == 1023 ==> request == UNLOCK
      ensures effects == old(effects) + [Publish(DOOR_TOPIC, BoolText(!doorPinHigh))] +
                         (if request == STANDBY then []
                          else LockWrites(request == LOCK) + [Publish(DOOR_TOPIC, BoolText(request == LOCK))])
      ensures local == (old(local) || request != STANDBY)
    {
      var doorClosed := !doorPinHigh;
      effects := effects + [Publish(DOOR_TOPIC, BoolText(doorClosed))];
      MapInRange(arduinoMap, analog, 0, 1023, 0, 2);
      request := KeypadOf(arduinoMap(analog, 0, 1023, 0, 2));
      if request != STANDBY {
        SetLock(request == LOCK, true);
      }
    }

    /**
      `triggerActuator`: only the lock topic is acted on. A pending keypad change swallows this
      message and clears the flag; otherwise "true" locks and anything else unlocks, with no report.
    */
    method TriggerActuator(topic: string, command: string)
      modifies this
      ensures request == old(request)
      ensures topic != LOCK_TOPIC ==> local == old(local) && effects == old(effects)
      ensures topic == LOCK_TOPIC && old(local) ==> !local && effects == old(effects)
      ensures topic == LOCK_TOPIC && !old(local) ==>
                !local && effects == old(effects) + LockWrites(command == "true")
    {
      if topic == LOCK_TOPIC {
        if local {
          local := false;
        } else {
          SetLock(command == "true", false);
        }
      }
    }
  }

  /**
    A keypad lock arms the flag, the next lock-topic message is swallowed whatever it says, and
    the one after it is obeyed again.
  */
  method EchoScenario() {
    var station := new Station();
    station.SetupDevice();
    station.SetLock(true, true);
    assert station.local;
    var before := station.effects;
    station.TriggerActuator(LOCK_TOPIC, "false");
    assert station.effects == before && !station.local;
    station.TriggerActuator(LOCK_TOPIC, "false");
    assert station.effects == before + LockWrites(false);
  }
}
