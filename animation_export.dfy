/** Encoding a host property and its curves into an animated property (`write_animation`). */
module AnimationExport {
  import opened Outcomes
  import opened Problems
  import opened Animation

  predicate Matches(c: FCurve, name: string, axis: nat)
  {
    c.dataPath == name && c.arrayIndex == axis
  }

  /** The first curve for property `name` and `axis`; later matches are never looked at. */
  function FindCurve(curves: seq<FCurve>, name: string, axis: nat): Option<FCurve>
  {
    if |curves| == 0 then None
    else if Matches(curves[0], name, axis) then Some(curves[0])
    else FindCurve(curves[1..], name, axis)
  }

  /** The curve found is the first that matches, and none is found only when none matches. */
  lemma {:induction false} FindCurveIsFirst(curves: seq<FCurve>, name: string, axis: nat)
    ensures FindCurve(curves, name, axis).None? <==> forall i :: 0 <= i < |curves| ==> !Matches(curves[i], name, axis)
    ensures FindCurve(curves, name, axis).Some? ==>
      exists i :: 0 <= i < |curves| && curves[i] == FindCurve(curves, name, axis).value && Matches(curves[i], name, axis)
                  && forall j :: 0 <= j < i ==> !Matches(curves[j], name, axis)
  {
    if |curves| > 0 && !Matches(curves[0], name, axis) {
      var tail := curves[1..];
      FindCurveIsFirst(tail, name, axis);
      assert forall j :: 1 <= j < |curves| ==> curves[j] == tail[j - 1];
      if FindCurve(tail, name, axis).Some? {
        var i :| 0 <= i < |tail| && tail[i] == FindCurve(tail, name, axis).value && Matches(tail[i], name, axis)
                 && forall j :: 0 <= j < i ==> !Matches(tail[j], name, axis);
        assert curves[i + 1] == tail[i];
      }
    }
  }

  /** The JSON value of a keyframe: `value != 0` for a boolean property. */
  function ExportedValue(v: real, isBoolean: bool): Value
  {
    if isBoolean then Bool(v != 0.0) else Num(v)
  }

  /** The JSON type of a host interpolation mode; only two are representable. */
  function KindOf(interpolation: string): Option<string>
  {
    if interpolation == "CONSTANT" then Some("constant")
    else if interpolation == "LINEAR" then Some("linear")
    else None
  }

  /** The keyframes of a curve, in their order; the first unrepresentable interpolation stops it. */
  function EncodeKeys(keys: seq<HostKeyframe>, isBoolean: bool): Result<Channel, Problem>
  {
    if |keys| == 0 then Success([])
    else
      match EncodeKeys(keys[..|keys| - 1], isBoolean)
      case Failure(e) => Failure(e)
      case Success(ch) =>
        var k := keys[|keys| - 1];
        match KindOf(k.interpolation)
        case None => Failure(UnexpectedInterpolation(k.interpolation))
        case Some(kind) => Success(ch + [Keyframe(k.frame, ExportedValue(k.value, isBoolean), kind)])
  }

  /** A matched curve: its extrapolation must hold the end values, then its keyframes are written. */
  function EncodeCurve(c: FCurve, isBoolean: bool): Result<Channel, Problem>
  {
    if c.extrapolation != "CONSTANT" then Failure(UnexpectedExtrapolation(c.extrapolation))
    else EncodeKeys(c.keyframes, isBoolean)
  }

  /** The channel written for an axis without a curve: the current value as one constant keyframe on frame 0. */
  function StaticChannel(v: Value): Channel
  {
    [Keyframe(0.0, v, "constant")]
  }

  function AxisChannel(curves: seq<FCurve>, name: string, axis: nat, isBoolean: bool, fallback: Value): Result<Channel, Problem>
  {
    match FindCurve(curves, name, axis)
    case None => Success(StaticChannel(fallback))
    case Some(c) => EncodeCurve(c, isBoolean)
  }

  /** The channels of the first `n` axes, or the first axis's failure. */
  function EncodeAxes(curves: seq<FCurve>, name: string, isBoolean: bool, fallback: seq<Value>, n: nat): (r: Result<seq<Channel>, Problem>)
    requires n <= |fallback|
    ensures r.Success? ==> |r.value| == n
  {
    if n == 0 then Success([])
    else
      match EncodeAxes(curves, name, isBoolean, fallback, n - 1)
      case Failure(e) => Failure(e)
      case Success(chs) =>
        match AxisChannel(curves, name, n - 1, isBoolean, fallback[n - 1])
        case Failure(e) => Failure(e)
        case Success(ch) => Success(chs + [ch])
  }

  /** The encoded property: a list of channels for several axes, the bare channel for one. */
  function Encoded(curves: seq<FCurve>, name: string, axes: nat, isBoolean: bool, fallback: seq<Value>): Result<Property, Problem>
    requires 1 <= axes && |fallback| == axes
  {
    match EncodeAxes(curves, name, isBoolean, fallback, axes)
    case Failure(e) => Failure(e)
    case Success(chs) => Success(if axes > 1 then Axes(chs) else Bare(chs[0]))
  }

  /** Once an axis fails, every longer run of axes fails with the same problem. */
  lemma {:induction false} EncodeAxesFailureSticks(curves: seq<FCurve>, name: string, isBoolean: bool, fallback: seq<Value>, n: nat, m: nat)
    requires n <= m <= |fallback| && EncodeAxes(curves, name, isBoolean, fallback, n).Failure?
    ensures EncodeAxes(curves, name, isBoolean, fallback, m) == EncodeAxes(curves, name, isBoolean, fallback, n)
    decreases m
  {
    if n < m { EncodeAxesFailureSticks(curves, name, isBoolean, fallback, n, m - 1); }
  }

  /** Once a keyframe fails, every longer prefix of the keyframes fails with the same problem. */
  lemma {:induction false} EncodeKeysFailureSticks(keys: seq<HostKeyframe>, isBoolean: bool, n: nat)
    requires n <= |keys| && EncodeKeys(keys[..n], isBoolean).Failure?
    ensures EncodeKeys(keys, isBoolean) == EncodeKeys(keys[..n], isBoolean)
    decreases |keys| - n
  {
    if n < |keys| {
      assert keys[..n + 1][..n] == keys[..n];
      EncodeKeysFailureSticks(keys, isBoolean, n + 1);
    } else {
      assert keys[..n] == keys;
    }
  }

  /** The keyframe loop of `write_animation` for the matched curve. */
  method WriteCurve(curve: FCurve, isBoolean: bool) returns (r: Result<Channel, Problem>)
    ensures r == EncodeCurve(curve, isBoolean)
  {
    if curve.extrapolation != "CONSTANT" {
      return Failure(UnexpectedExtrapolation(curve.extrapolation));
    }
    var keyframes: seq<Keyframe> := [];
    var k := 0;
    while k < |curve.keyframes|
      invariant 0 <= k <= |curve.keyframes|
      invariant EncodeKeys(curve.keyframes[..k], isBoolean) == Success(keyframes)
    {
      var key := curve.keyframes[k];
      var value := if isBoolean then Bool(key.value != 0.0) else Num(key.value);
      var kind;
      assert curve.keyframes[..k + 1][..k] == curve.keyframes[..k];
      if key.interpolation == "CONSTANT" {
        kind := "constant";
      } else if key.interpolation == "LINEAR" {
        kind := "linear";
      } else {
        EncodeKeysFailureSticks(curve.keyframes, isBoolean, k + 1);
        return Failure(UnexpectedInterpolation(key.interpolation));
      }
      keyframes := keyframes + [Keyframe(key.frame, value, kind)];
      k := k + 1;
    }
    assert curve.keyframes[..k] == curve.keyframes;
    r := Success(keyframes);
  }

  /** `write_animation`: for each axis, the first curve on that path and axis is written
      keyframe by keyframe; an axis without one is written as its current value. */
  method WriteAnimation(curves: seq<FCurve>, name: string, axes: nat, isBoolean: bool, fallback: seq<Value>)
    returns (r: Result<Property, Problem>)
    requires 1 <= axes && |fallback| == axes
    ensures r == Encoded(curves, name, axes, isBoolean, fallback)
  {
    var output: seq<Channel> := [];
    var axis := 0;
    while axis < axes
      invariant 0 <= axis <= axes
      invariant EncodeAxes(curves, name, isBoolean, fallback, axis) == Success(output)
    {
      var found := false;
      var i := 0;
      while i < |curves|
        invariant 0 <= i <= |curves|
        invariant FindCurve(curves, name, axis) == FindCurve(curves[i..], name, axis)
      {
        var curve := curves[i];
        if curve.dataPath != name || curve.arrayIndex != axis {
          assert curves[i..][1..] == curves[i + 1..];
          i := i + 1;
          continue;
        }
        var keyframes := WriteCurve(curve, isBoolean);
        if keyframes.Failure? {
          EncodeAxesFailureSticks(curves, name, isBoolean, fallback, axis + 1, axes);
          return Failure(keyframes.error);
        }
        output := output + [keyframes.value];
        found := true;
        break;
      }
      if !found {
        output := output + [StaticChannel(fallback[axis])];
      }
      axis := axis + 1;
    }
    r := Success(if axes > 1 then Axes(output) else Bare(output[0]));
  }
}
