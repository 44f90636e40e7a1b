/** The `SmartHome` namespace: the canonical light state shared by the library and the sketches. */
module SmartHome {

  /** Exactly two kinds of light. */
  datatype LightType = DIMMABLE | COLOR

  datatype Light = Light(isOn: bool, brightness: int, hue: int, saturation: int, lightType: LightType)

  /** The documented ranges: brightness 0-100, hue 0-360, saturation 0-100. */
  predicate InRange(l: Light) {
    0 <= l.brightness <= 100 && 0 <= l.hue <= 360 && 0 <= l.saturation <= 100
  }
}
