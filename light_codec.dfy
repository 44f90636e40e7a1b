/**
  The static helpers of `SmartDevice`: the command decoder `commandToLight` and the two projections
  `getRGB` and `getBrightnessValue`. They read no device state, so they are functions here.
*/
module LightCodec {
  import opened Arduino
  import opened ArduinoJson
  import opened SmartHome

  /** The light a command that cannot be parsed decodes to. */
  const OffLight: Light := Light(false, 0, 0, 0, DIMMABLE)

  /** True when `root` holds `key` as an integer inside [0, hi]. */
  predicate HoldsInRange(root: JsonValue, key: string, hi: int) {
    var v := Member(root, key);
    v.JInt? && 0 <= v.n <= hi
  }

  /** The numeric field read from `key`, as `doc[key] | 0` followed by `constrain(_, 0, hi)`. */
  function Field(root: JsonValue, key: string, hi: int): int {
    Constrain(IntOr(Member(root, key), 0), 0, hi)
  }

  /**
    `commandToLight` applied to what `deserializeJson` made of the command. `boolOf` is the
    library's `as<bool>()` on values that are not JSON booleans.
  */
  function CommandToLight(doc: Deserialization, boolOf: JsonValue -> bool): (r: Light)
    ensures InRange(r)
    ensures doc.DeserializationError? ==> r == OffLight
    ensures r.lightType == COLOR <==>
              doc.Document? && (ContainsKey(doc.root, "hue") || ContainsKey(doc.root, "sat"))
    ensures r.lightType == DIMMABLE ==> r.hue == 0 && r.saturation == 0
    ensures r.isOn <==>
              doc.Document? && ContainsKey(doc.root, "swi") && AsBool(Member(doc.root, "swi"), boolOf)
    ensures doc.Document? && Member(doc.root, "swi") == JBool(true) ==> r.isOn
    ensures doc.Document? && !ContainsKey(doc.root, "bri") ==> r.brightness == 0
    ensures doc.Document? && HoldsInRange(doc.root, "bri", 100) ==> r.brightness == Member(doc.root, "bri").n
    ensures r.lightType == COLOR && HoldsInRange(doc.root, "hue", 360) ==> r.hue == Member(doc.root, "hue").n
    ensures r.lightType == COLOR && HoldsInRange(doc.root, "sat", 100) ==> r.saturation == Member(doc.root, "sat").n
    ensures r.lightType == COLOR && !ContainsKey(doc.root, "hue") ==> r.hue == 0
    ensures r.lightType == COLOR && !ContainsKey(doc.root, "sat") ==> r.saturation == 0
  {
    match doc
    case DeserializationError => OffLight
    case Document(root) =>
      var isOn := if ContainsKey(root, "swi") then AsBool(Member(root, "swi"), boolOf) else false;
      if ContainsKey(root, "hue") || ContainsKey(root, "sat") then
        Light(isOn, Field(root, "bri", 100), Field(root, "hue", 360), Field(root, "sat", 100), COLOR)
      else
        Light(isOn, Field(root, "bri", 100), 0, 0, DIMMABLE)
  }

  /**
    A numeric key holding a 32-bit integer outside its range decodes to the nearer end of the
    range; a key holding anything that is not such an integer decodes to 0.
  */
  lemma FieldClamps(root: JsonValue, key: string, hi: int)
    requires 0 <= hi
    ensures var v := Member(root, key);
            v.JInt? && hi < v.n <= INT_MAX ==> Field(root, key, hi) == hi
    ensures var v := Member(root, key);
            v.JInt? && INT_MIN <= v.n < 0 ==> Field(root, key, hi) == 0
    ensures var v := Member(root, key);
            !(v.JInt? && INT_MIN <= v.n <= INT_MAX) ==> Field(root, key, hi) == 0
  {
  }

  /** `getBrightnessValue`: brightness 0-100 mapped to 0-255 and truncated to `uint8_t`. */
  function GetBrightnessValue(l: Light, arduinoMap: MapFn): (v: byte)
    ensures 0 <= arduinoMap(l.brightness, 0, 100, 0, 255) <= 255 ==>
              v == arduinoMap(l.brightness, 0, 100, 0, 255)
    ensures (v - arduinoMap(l.brightness, 0, 100, 0, 255)) % 0x100 == 0
  {
    ToUint8(arduinoMap(l.brightness, 0, 100, 0, 255))
  }

  /**
    For a brightness in range, the value is the map's own result, inside [0, 255], with 0 sent to 0
    and 100 to 255. The switch state plays no part.
  */
  lemma BrightnessValueInRange(l: Light, arduinoMap: MapFn)
    requires WithinOneUnit(arduinoMap)
    requires 0 <= l.brightness <= 100
    ensures GetBrightnessValue(l, arduinoMap) == arduinoMap(l.brightness, 0, 100, 0, 255)
    ensures l.brightness == 0 ==> GetBrightnessValue(l, arduinoMap) == 0
    ensures l.brightness == 100 ==> GetBrightnessValue(l, arduinoMap) == 255
    ensures GetBrightnessValue(l.(isOn := !l.isOn), arduinoMap) == GetBrightnessValue(l, arduinoMap)
  {
    MapInRange(arduinoMap, l.brightness, 0, 100, 0, 255);
  }

  /** `Adafruit_NeoPixel::Color(r, g, b)`: the three channels packed as 0xRRGGBB. */
  function PackColor(r: byte, g: byte, b: byte): (c: uint32)
    ensures c / 0x1_0000 == r && c / 0x100 % 0x100 == g && c % 0x100 == b
  {
    var low := g * 0x100 + b;
    DivModUnique(g, b, 0x100);
    DivModUnique(r, low, 0x1_0000);
    DivModUnique(r * 0x100 + g, b, 0x100);
    DivModUnique(r, g, 0x100);
    assert r * 0x1_0000 + low == (r * 0x100 + g) * 0x100 + b;
    r * 0x1_0000 + low
  }

  function Red(c: uint32): byte { c / 0x1_0000 % 0x100 }
  function Green(c: uint32): byte { c / 0x100 % 0x100 }
  function Blue(c: uint32): byte { c % 0x100 }

  /** `Adafruit_NeoPixel::ColorHSV(hue, sat, val)`, a foreign transform. */
  type HsvFn = (uint16, byte, byte) -> uint32

  /**
    `getRGB`: a COLOR light goes through the HSV transform with hue mapped to 0-65535 and saturation
    and brightness to 0-255; a DIMMABLE light becomes a gray of its mapped brightness.
  */
  function GetRGB(l: Light, arduinoMap: MapFn, colorHSV: HsvFn): (c: uint32)
    ensures l.lightType == DIMMABLE ==>
              Red(c) == GetBrightnessValue(l, arduinoMap) && Green(c) == Red(c) && Blue(c) == Red(c)
  {
    if l.lightType == COLOR then
      colorHSV(ToUint16(arduinoMap(l.hue, 0, 360, 0, 65535)),
               ToUint8(arduinoMap(l.saturation, 0, 100, 0, 255)),
               ToUint8(arduinoMap(l.brightness, 0, 100, 0, 255)))
    else
      var dim := ToUint8(arduinoMap(l.brightness, 0, 100, 0, 255));
      PackColor(dim, dim, dim)
  }

  /**
    A DIMMABLE light projects to a gray: three equal channels, each the brightness value, whatever
    the switch state.
  */
  lemma DimmableRGBIsGray(l: Light, arduinoMap: MapFn, colorHSV: HsvFn)
    requires l.lightType == DIMMABLE
    ensures var c := GetRGB(l, arduinoMap, colorHSV);
            Red(c) == Green(c) == Blue(c) == GetBrightnessValue(l, arduinoMap)
    ensures GetRGB(l.(isOn := !l.isOn), arduinoMap, colorHSV) == GetRGB(l, arduinoMap, colorHSV)
  {
    var d := GetBrightnessValue(l, arduinoMap);
    var c := PackColor(d, d, d);
    assert GetRGB(l, arduinoMap, colorHSV) == c;
    assert GetRGB(l.(isOn := !l.isOn), arduinoMap, colorHSV) == c;
    assert Red(c) == d && Green(c) == d && Blue(c) == d;
  }

  /**
    Every decoded command drives a dimmable output within [0, 255]; a command that cannot be
    parsed drives it to 0, the safe "off" level.
  */
  lemma DecodedBrightnessValue(doc: Deserialization, boolOf: JsonValue -> bool, arduinoMap: MapFn)
    requires WithinOneUnit(arduinoMap)
    ensures var l := CommandToLight(doc, boolOf);
            GetBrightnessValue(l, arduinoMap) == arduinoMap(l.brightness, 0, 100, 0, 255)
    ensures doc.DeserializationError? ==> GetBrightnessValue(CommandToLight(doc, boolOf), arduinoMap) == 0
  {
    BrightnessValueInRange(CommandToLight(doc, boolOf), arduinoMap);
  }
}
