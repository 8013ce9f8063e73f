/** Decoding an animated property onto a host object (`read_animation`). */
module AnimationImport {
  import opened Outcomes
  import opened Problems
  import opened Animation

  /** The value a decoded property is set to: a scalar for one axis, else one entry per axis. */
  datatype Rest = Scalar(value: Value) | Vector(values: seq<Value>)

  /** The effect of decoding on the host object: the curves it creates and the value it sets. */
  datatype Decoded = Decoded(curves: seq<FCurve>, rest: Rest)

  /** The axes of a property. Looking at the first element fails on an empty list. */
  function AxesOf(p: Property): Result<seq<Channel>, ImportError>
  {
    match p
    case Bare(ch) => if |ch| == 0 then Failure(NoChannels) else Success([ch])
    case Axes(chs) => if |chs| == 0 then Failure(NoChannels) else Success(chs)
  }

  /** The static shortcut: one `constant` keyframe on frame 0 needs no curve. */
  predicate IsStatic(ch: Channel)
  {
    |ch| == 1 && ch[0].kind == "constant" && ch[0].startsOnFrame == 0.0
  }

  /** The host interpolation a keyframe type selects; an unknown type leaves the host's default. */
  function InterpolationOf(kind: string, hostDefault: string): string
  {
    if kind == "constant" then "CONSTANT"
    else if kind == "linear" then "LINEAR"
    else hostDefault
  }

  /** The host point `keyframe_points.insert` creates for a JSON keyframe. */
  function Inserted(k: Keyframe, hostDefault: string): HostKeyframe
  {
    HostKeyframe(k.startsOnFrame, AsReal(k.withValue), InterpolationOf(k.kind, hostDefault))
  }

  /** The curve created for one axis that is not static. */
  function AxisCurve(name: string, axis: nat, ch: Channel, hostDefault: string): FCurve
  {
    FCurve(name, axis, NewCurveExtrapolation, seq(|ch|, i requires 0 <= i < |ch| => Inserted(ch[i], hostDefault)))
  }

  /** The curves the first `n` axes create, in axis order. */
  function CurvesFor(name: string, axes: seq<Channel>, hostDefault: string, n: nat): seq<FCurve>
    requires n <= |axes|
  {
    if n == 0 then []
    else
      CurvesFor(name, axes, hostDefault, n - 1)
      + (if IsStatic(axes[n - 1]) then [] else [AxisCurve(name, n - 1, axes[n - 1], hostDefault)])
  }

  /** The first axis without keyframes, if any (`axis[0]` raises there). */
  function FirstEmptyAxis(axes: seq<Channel>, from: nat): (r: Option<nat>)
    requires from <= |axes|
    ensures r.None? <==> forall a :: from <= a < |axes| ==> |axes[a]| > 0
    ensures r.Some? ==> from <= r.value < |axes| && |axes[r.value]| == 0
                        && forall b :: from <= b < r.value ==> |axes[b]| > 0
    decreases |axes| - from
  {
    if from == |axes| then None
    else if |axes[from]| == 0 then Some(from)
    else FirstEmptyAxis(axes, from + 1)
  }

  /** The rest value: the first value of every axis, as a scalar when there is one axis. */
  function RestOf(firsts: seq<Value>): Rest
    requires |firsts| > 0
  {
    if |firsts| > 1 then Vector(firsts) else Scalar(firsts[0])
  }

  /** What decoding property `name` from `p` does to the host object. */
  function Decode(p: Property, name: string, hostDefault: string): Result<Decoded, ImportError>
  {
    match AxesOf(p)
    case Failure(e) => Failure(e)
    case Success(axes) =>
      match FirstEmptyAxis(axes, 0)
      case Some(a) => Failure(EmptyAxis(a))
      case None =>
        Success(Decoded(CurvesFor(name, axes, hostDefault, |axes|),
                        RestOf(seq(|axes|, a requires 0 <= a < |axes| && |axes[a]| > 0 => axes[a][0].withValue))))
  }

  /** `read_animation`: wraps a bare channel into one axis, records the first value of every
      axis, creates one curve per axis that is not static, and sets the property. */
  method ReadAnimation(p: Property, name: string, hostDefault: string) returns (r: Result<Decoded, ImportError>)
    ensures r == Decode(p, name, hostDefault)
  {
    var axes: seq<Channel>;
    match p {
      case Bare(ch) =>
        if |ch| == 0 { return Failure(NoChannels); }
        axes := [ch];
      case Axes(chs) =>
        if |chs| == 0 { return Failure(NoChannels); }
        axes := chs;
    }
    var firstValues: seq<Value> := [];
    var curves: seq<FCurve> := [];
    var axis := 0;
    while axis < |axes|
      invariant 0 <= axis <= |axes|
      invariant forall b :: 0 <= b < axis ==> |axes[b]| > 0
      invariant FirstEmptyAxis(axes, 0) == FirstEmptyAxis(axes, axis)
      invariant |firstValues| == axis
      invariant forall b :: 0 <= b < axis ==> firstValues[b] == axes[b][0].withValue
      invariant curves == CurvesFor(name, axes, hostDefault, axis)
    {
      var ch := axes[axis];
      if |ch| == 0 {
        return Failure(EmptyAxis(axis));
      }
      firstValues := firstValues + [ch[0].withValue];
      if !IsStatic(ch) {
        var points: seq<HostKeyframe> := [];
        var k := 0;
        while k < |ch|
          invariant 0 <= k <= |ch|
          invariant points == seq(k, i requires 0 <= i < k => Inserted(ch[i], hostDefault))
        {
          var kind := ch[k].kind;
          var interpolation := hostDefault;
          if kind == "constant" {
            interpolation := "CONSTANT";
          } else if kind == "linear" {
            interpolation := "LINEAR";
          }
          points := points + [HostKeyframe(ch[k].startsOnFrame, AsReal(ch[k].withValue), interpolation)];
          k := k + 1;
        }
        curves := curves + [FCurve(name, axis, NewCurveExtrapolation, points)];
      }
      axis := axis + 1;
    }
    assert firstValues == seq(|axes|, a requires 0 <= a < |axes| && |axes[a]| > 0 => axes[a][0].withValue);
    r := Success(Decoded(curves, if |firstValues| > 1 then Vector(firstValues) else Scalar(firstValues[0])));
  }
}
