/**
  The curtain sketch (StationSample5): a remote's NEC infrared frames drive one servo, key 8
  closing the curtain and key 10 opening it, and hub commands on the curtain topic set it directly.
*/
module CurtainStation {
  import opened Wrappers

  const CURTAIN_TOPIC := "classroom/curtain"

  /** The servo angles for a closed and an open curtain. */
  const CLOSED_ANGLE := 180
  const OPEN_ANGLE := 0

  /**
    `mapCodeToButton` on the 32-bit raw frame: the low half must be the remote's address 0xBF00,
    bits 24-31 must be the complement of the command in bits 16-23, and the command is the result;
    anything else gives -1.
  */
  function MapCodeToButton(code: bv32): (r: int)
    ensures r == -1 || 0 <= r <= 255
    ensures (code & 0xFFFF) != 0xBF00 ==> r == -1
    ensures (code & 0xFFFF) == 0xBF00 && ((code >> 24) ^ ((code >> 16) & 0xFF)) != 0xFF ==> r == -1
  {
    if (code & 0xFFFF) == 0xBF00 then
      var shifted := code >> 16;
      if ((shifted >> 8) ^ (shifted & 0xFF)) == 0xFF then (shifted & 0xFF) as int else -1
    else -1
  }

  /** The frame the remote sends for key `b`: address, command, inverted command. */
  function NecFrame(b: bv8): bv32 {
    0xBF00 | ((b as bv32) << 16) | (((!b) as bv32) << 24)
  }

  /** Every key's frame decodes to that key. */
  lemma MapCodeRoundTrip(b: bv8)
    ensures MapCodeToButton(NecFrame(b)) == b as int
  {
    var code := NecFrame(b);
    assert (code & 0xFFFF) == 0xBF00;
    assert (code >> 16) & 0xFF == b as bv32;
    assert (((code >> 16) >> 8) ^ ((code >> 16) & 0xFF)) == 0xFF;
  }

  /** Only the remote's frames decode: a code with a key is exactly that key's frame. */
  lemma MapCodeOnlyFrames(code: bv32)
    requires MapCodeToButton(code) != -1
    ensures code == NecFrame(MapCodeToButton(code) as bv8)
  {
    var shifted := code >> 16;
    var b := (shifted & 0xFF) as bv8;
    assert MapCodeToButton(code) == (shifted & 0xFF) as int;
    assert (shifted & 0xFF) as int == b as int;
    assert code == 0xBF00 | ((b as bv32) << 16) | (((!b) as bv32) << 24);
  }

  /** `readInfrared`: -1 when nothing was received, otherwise the decoded key. */
  function ReadInfrared(received: Option<bv32>): (code: int)
    ensures code == -1 || 0 <= code <= 255
  {
    match received
    case None => -1
    case Some(raw) => MapCodeToButton(raw)
  }

  /** A received code is key `k` exactly when the remote sent key `k`'s frame. */
  lemma ReadInfraredIsKey(received: Option<bv32>, k: bv8)
    ensures ReadInfrared(received) == k as int <==> received == Some(NecFrame(k))
  {
    if received == Some(NecFrame(k)) {
      MapCodeRoundTrip(k);
    }
    if ReadInfrared(received) == k as int {
      MapCodeOnlyFrames(received.value);
    }
  }

  /** What the sketch does to the outside world. */
  datatype Effect =
    | ServoWrite(angle: int)
    | Publish(topic: string, payload: string)
    | Subscribe(topic: string)

  /** The servo effect and, if the hub is to be told, the report of a curtain change. */
  function CurtainEffects(state: bool, informServer: bool): (e: seq<Effect>)
    ensures |e| == (if informServer then 2 else 1)
    ensures e[0] == ServoWrite(if state then CLOSED_ANGLE else OPEN_ANGLE)
  {
    [ServoWrite(if state then CLOSED_ANGLE else OPEN_ANGLE)] +
      (if informServer then [Publish(CURTAIN_TOPIC, if state then "true" else "false")] else [])
  }

  /**
    What one `readSensor` pass does for what the receiver delivered: key 8 closes the curtain and
    reports "true", key 10 opens it and reports "false", anything else does nothing.
  */
  function SensorEffects(received: Option<bv32>): (e: seq<Effect>)
    ensures e != [] <==> received == Some(NecFrame(8)) || received == Some(NecFrame(10))
    ensures received == Some(NecFrame(8)) ==>
              e == [ServoWrite(CLOSED_ANGLE), Publish(CURTAIN_TOPIC, "true")]
    ensures received == Some(NecFrame(10)) ==>
              e == [ServoWrite(OPEN_ANGLE), Publish(CURTAIN_TOPIC, "false")]
  {
    ReadInfraredIsKey(received, 8);
    ReadInfraredIsKey(received, 10);
    var code := ReadInfrared(received);
    if code == 8 then CurtainEffects(true, true)
    else if code == 10 then CurtainEffects(false, true)
    else []
  }

  /** The sketch's hardware as seen through its outputs, in the order it produced them. */
  class Curtain {
    var effects: seq<Effect>

    constructor()
      ensures effects == []
    {
      effects := [];
    }

    /** `setupDevice`: start open, then subscribe to the curtain topic. */
    method SetupDevice()
      modifies this
      ensures effects == old(effects) + [ServoWrite(OPEN_ANGLE), Subscribe(CURTAIN_TOPIC)]
    {
      effects := effects + [ServoWrite(OPEN_ANGLE)];
      effects := effects + [Subscribe(CURTAIN_TOPIC)];
    }

    /** `curtainClosed`: move the servo, then report the new state when asked to. */
    method CurtainClosed(state: bool, informServer: bool)
      modifies this
      ensures effects == old(effects) + CurtainEffects(state, informServer)
    {
      effects := effects + [ServoWrite(if state then CLOSED_ANGLE else OPEN_ANGLE)];
      if informServer {
        effects := effects + [Publish(CURTAIN_TOPIC, if state then "true" else "false")];
      }
    }

    /** `readSensor`: act on keys 8 and 10 of the remote only. */
    method ReadSensor(received: Option<bv32>)
      modifies this
      ensures effects == old(effects) + SensorEffects(received)
    {
      var code := ReadInfrared(received);
      if code == 8 {
        CurtainClosed(true, true);
      } else if code == 10 {
        CurtainClosed(false, true);
      }
    }

    /**
      `triggerActuator`: whatever the topic, close on "true" and open on anything else, without
      reporting back.
    */
    method TriggerActuator(topic: string, command: string)
      modifies this
      ensures effects == old(effects) + [ServoWrite(if command == "true" then CLOSED_ANGLE else OPEN_ANGLE)]
    {
      CurtainClosed(command == "true", false);
    }
  }
}
