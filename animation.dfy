/** The two sides of an animated property: the JSON channels of a Sodium Scene File and the
    host's animation curves (F-curves). */
module Animation {

  /** A JSON number, or a JSON boolean (how a boolean host property is written). */
  datatype Value = Num(n: real) | Bool(b: bool)

  /** Python's `float(v)`: what the host stores when it is handed a JSON value. */
  function AsReal(v: Value): (r: real)
    ensures v.Num? ==> r == v.n
    ensures v.Bool? ==> (r == 1.0 <==> v.b) && (r == 0.0 <==> !v.b)
  {
    match v
    case Num(n) => n
    case Bool(b) => if b then 1.0 else 0.0
  }

  /** The current value of a three-axis host property (a vector, an Euler rotation, a colour). */
  datatype Triple = Triple(x: Value, y: Value, z: Value)

  /** The axes of a triple in order: what `getattr` hands `write_animation` as its fallback. */
  function Components(t: Triple): (r: seq<Value>)
    ensures |r| == 3 && r[0] == t.x && r[1] == t.y && r[2] == t.z
  {
    [t.x, t.y, t.z]
  }

  /** One JSON keyframe, `{"startsOnFrame", "withValue", "type"}`. */
  datatype Keyframe = Keyframe(startsOnFrame: real, withValue: Value, kind: string)

  /** One axis of an animated property. */
  type Channel = seq<Keyframe>

  /** An animated property as it appears in the document: a bare channel for a one-axis
      property, or a list of channels. */
  datatype Property = Bare(channel: Channel) | Axes(channels: seq<Channel>)

  /** The channels of a property, one per axis. */
  function Channels(p: Property): seq<Channel>
  {
    match p
    case Bare(ch) => [ch]
    case Axes(chs) => chs
  }

  /** A host keyframe point: `co[0]`, `co[1]` and its interpolation mode. */
  datatype HostKeyframe = HostKeyframe(frame: real, value: real, interpolation: string)

  /** A host animation curve, addressed by property path and axis. */
  datatype FCurve = FCurve(dataPath: string, arrayIndex: nat, extrapolation: string, keyframes: seq<HostKeyframe>)

  /** The extrapolation the host gives a curve it creates. */
  const NewCurveExtrapolation := "CONSTANT"
}
