/** What decoding and encoding an animated property promise, and how the two fit together. */
module AnimationProperties {
  import opened Outcomes
  import opened Problems
  import opened Animation
  import opened AnimationImport
  import opened AnimationExport

  // ----- decoding -----

  /** Every created curve belongs to one non-static axis and carries exactly that axis's keyframes. */
  lemma {:induction false} CurvesForSound(name: string, axes: seq<Channel>, hostDefault: string, n: nat)
    requires n <= |axes|
    ensures forall i :: 0 <= i < |CurvesFor(name, axes, hostDefault, n)| ==>
      var c := CurvesFor(name, axes, hostDefault, n)[i];
      c.arrayIndex < n && !IsStatic(axes[c.arrayIndex]) && c == AxisCurve(name, c.arrayIndex, axes[c.arrayIndex], hostDefault)
  {
    if n > 0 {
      CurvesForSound(name, axes, hostDefault, n - 1);
      var prev := CurvesFor(name, axes, hostDefault, n - 1);
      var cs := CurvesFor(name, axes, hostDefault, n);
      assert cs == prev + (if IsStatic(axes[n - 1]) then [] else [AxisCurve(name, n - 1, axes[n - 1], hostDefault)]);
      forall i | 0 <= i < |cs|
        ensures cs[i].arrayIndex < n && !IsStatic(axes[cs[i].arrayIndex])
                && cs[i] == AxisCurve(name, cs[i].arrayIndex, axes[cs[i].arrayIndex], hostDefault)
      {
        if i < |prev| { assert cs[i] == prev[i]; }
      }
    }
  }

  /** The curves come in strictly increasing axis order, so no axis is given two. */
  lemma {:induction false} CurvesForOrdered(name: string, axes: seq<Channel>, hostDefault: string, n: nat)
    requires n <= |axes|
    ensures forall i, j :: 0 <= i < j < |CurvesFor(name, axes, hostDefault, n)| ==>
      CurvesFor(name, axes, hostDefault, n)[i].arrayIndex < CurvesFor(name, axes, hostDefault, n)[j].arrayIndex
  {
    if n > 0 {
      CurvesForOrdered(name, axes, hostDefault, n - 1);
      CurvesForSound(name, axes, hostDefault, n - 1);
      var prev := CurvesFor(name, axes, hostDefault, n - 1);
      var cs := CurvesFor(name, axes, hostDefault, n);
      assert cs == prev + (if IsStatic(axes[n - 1]) then [] else [AxisCurve(name, n - 1, axes[n - 1], hostDefault)]);
      forall i, j | 0 <= i < j < |cs|
        ensures cs[i].arrayIndex < cs[j].arrayIndex
      {
        assert cs[i] == prev[i];
        if j < |prev| { assert cs[j] == prev[j]; }
      }
    }
  }

  /** Every axis that is not static is given a curve. */
  lemma {:induction false} CurvesForComplete(name: string, axes: seq<Channel>, hostDefault: string, n: nat)
    requires n <= |axes|
    ensures forall a :: 0 <= a < n && !IsStatic(axes[a]) ==>
      exists i :: 0 <= i < |CurvesFor(name, axes, hostDefault, n)| && CurvesFor(name, axes, hostDefault, n)[i].arrayIndex == a
  {
    if n > 0 {
      CurvesForComplete(name, axes, hostDefault, n - 1);
      var prev := CurvesFor(name, axes, hostDefault, n - 1);
      var cs := CurvesFor(name, axes, hostDefault, n);
      assert cs == prev + (if IsStatic(axes[n - 1]) then [] else [AxisCurve(name, n - 1, axes[n - 1], hostDefault)]);
      forall a | 0 <= a < n && !IsStatic(axes[a])
        ensures exists i :: 0 <= i < |cs| && cs[i].arrayIndex == a
      {
        if a == n - 1 {
          assert cs[|prev|] == AxisCurve(name, n - 1, axes[n - 1], hostDefault);
          assert cs[|prev|].arrayIndex == a;
        } else {
          assert exists i :: 0 <= i < |prev| && prev[i].arrayIndex == a;
          var i :| 0 <= i < |prev| && prev[i].arrayIndex == a;
          assert cs[i] == prev[i];
        }
      }
      assert forall a :: 0 <= a < n && !IsStatic(axes[a]) ==> exists i :: 0 <= i < |cs| && cs[i].arrayIndex == a;
      assert cs == CurvesFor(name, axes, hostDefault, n);
    }
  }

  /** Decoding sets the property to the first value of the one axis as a scalar, or to the list
      of the first values of all axes; an axis is given a curve exactly when it is not static,
      and that curve holds all its keyframes in order with `constant`/`linear` mapped to
      `CONSTANT`/`LINEAR`. */
  lemma DecodeCharacterised(p: Property, name: string, hostDefault: string)
    requires Decode(p, name, hostDefault).Success?
    ensures var d := Decode(p, name, hostDefault).value;
      var axes := Channels(p);
      |axes| > 0 && (forall a :: 0 <= a < |axes| ==> |axes[a]| > 0)
      && (d.rest.Scalar? <==> |axes| == 1)
      && (d.rest.Scalar? ==> d.rest.value == axes[0][0].withValue)
      && (d.rest.Vector? ==> |d.rest.values| == |axes| && forall a :: 0 <= a < |axes| ==> d.rest.values[a] == axes[a][0].withValue)
      && (forall a :: 0 <= a < |axes| ==> (!IsStatic(axes[a]) <==> exists i :: 0 <= i < |d.curves| && d.curves[i].arrayIndex == a))
      && (forall i :: 0 <= i < |d.curves| ==>
            var a := d.curves[i].arrayIndex;
            a < |axes| && d.curves[i].dataPath == name && |d.curves[i].keyframes| == |axes[a]|
            && forall k :: 0 <= k < |axes[a]| ==>
                 d.curves[i].keyframes[k].frame == axes[a][k].startsOnFrame
                 && d.curves[i].keyframes[k].value == AsReal(axes[a][k].withValue)
                 && (axes[a][k].kind == "constant" ==> d.curves[i].keyframes[k].interpolation == "CONSTANT")
                 && (axes[a][k].kind == "linear" ==> d.curves[i].keyframes[k].interpolation == "LINEAR"))
  {
    var axes := AxesOf(p).value;
    assert axes == Channels(p);
    var d := Decode(p, name, hostDefault).value;
    CurvesForSound(name, axes, hostDefault, |axes|);
    CurvesForComplete(name, axes, hostDefault, |axes|);
    forall a | 0 <= a < |axes| && IsStatic(axes[a])
      ensures forall i :: 0 <= i < |d.curves| ==> d.curves[i].arrayIndex != a
    {
    }
  }

  /** A bare channel is read as a single axis: its first value becomes the scalar rest value. */
  lemma DecodeBareChannel(ch: Channel, name: string, hostDefault: string)
    requires |ch| > 0
    ensures Decode(Bare(ch), name, hostDefault)
         == Success(Decoded(if IsStatic(ch) then [] else [AxisCurve(name, 0, ch, hostDefault)], Scalar(ch[0].withValue)))
  {
    var axes: seq<Channel> := [ch];
    assert CurvesFor(name, axes, hostDefault, 1) == if IsStatic(ch) then [] else [AxisCurve(name, 0, ch, hostDefault)];
    assert seq(|axes|, a requires 0 <= a < |axes| && |axes[a]| > 0 => axes[a][0].withValue) == [ch[0].withValue];
  }

  // ----- encoding -----

  /** A curve the file format can hold: end values held, only constant and linear keyframes. */
  predicate Representable(c: FCurve)
  {
    c.extrapolation == "CONSTANT"
    && forall k :: 0 <= k < |c.keyframes| ==> KindOf(c.keyframes[k].interpolation).Some?
  }

  /** The keyframes are written one for one, in order, with the boolean coercion applied; the
      write fails exactly when some keyframe's interpolation is neither constant nor linear. */
  lemma {:induction false} EncodeKeysCharacterised(keys: seq<HostKeyframe>, isBoolean: bool)
    ensures EncodeKeys(keys, isBoolean).Success? <==> forall k :: 0 <= k < |keys| ==> KindOf(keys[k].interpolation).Some?
    ensures EncodeKeys(keys, isBoolean).Success? ==>
      var ch := EncodeKeys(keys, isBoolean).value;
      |ch| == |keys|
      && forall k :: 0 <= k < |keys| ==>
           ch[k].startsOnFrame == keys[k].frame && ch[k].withValue == ExportedValue(keys[k].value, isBoolean)
           && KindOf(keys[k].interpolation) == Some(ch[k].kind)
  {
    if |keys| > 0 {
      var init := keys[..|keys| - 1];
      EncodeKeysCharacterised(init, isBoolean);
      assert forall k :: 0 <= k < |init| ==> init[k] == keys[k];
    }
  }

  /** One channel per axis, a bare channel exactly for one axis; an axis without a matching
      curve is the static channel of its current value, otherwise the first matching curve's
      keyframes in order. */
  lemma EncodedShape(curves: seq<FCurve>, name: string, axes: nat, isBoolean: bool, fallback: seq<Value>)
    requires 1 <= axes && |fallback| == axes
    requires Encoded(curves, name, axes, isBoolean, fallback).Success?
    ensures var p := Encoded(curves, name, axes, isBoolean, fallback).value;
      (p.Bare? <==> axes == 1) && |Channels(p)| == axes
      && forall a :: 0 <= a < axes ==>
           match FindCurve(curves, name, a)
           case None => Channels(p)[a] == [Keyframe(0.0, fallback[a], "constant")]
           case Some(c) =>
             Matches(c, name, a) && c in curves && |Channels(p)[a]| == |c.keyframes|
             && forall k :: 0 <= k < |c.keyframes| ==>
                  Channels(p)[a][k].startsOnFrame == c.keyframes[k].frame
                  && Channels(p)[a][k].withValue == ExportedValue(c.keyframes[k].value, isBoolean)
                  && KindOf(c.keyframes[k].interpolation) == Some(Channels(p)[a][k].kind)
  {
    var chs: seq<Channel> := EncodeAxes(curves, name, isBoolean, fallback, axes).value;
    assert Channels(Encoded(curves, name, axes, isBoolean, fallback).value) == chs;
    forall a | 0 <= a < axes
      ensures match FindCurve(curves, name, a)
           case None => chs[a] == [Keyframe(0.0, fallback[a], "constant")]
           case Some(c) =>
             Matches(c, name, a) && c in curves && |chs[a]| == |c.keyframes|
             && forall k :: 0 <= k < |c.keyframes| ==>
                  chs[a][k].startsOnFrame == c.keyframes[k].frame
                  && chs[a][k].withValue == ExportedValue(c.keyframes[k].value, isBoolean)
                  && KindOf(c.keyframes[k].interpolation) == Some(chs[a][k].kind)
    {
      EncodeAxesPrefix(curves, name, isBoolean, fallback, axes, a);
      match FindCurve(curves, name, a)
      case None =>
      case Some(c) =>
        FindCurveIsFirst(curves, name, a);
        assert EncodeKeys(c.keyframes, isBoolean) == Success(chs[a]);
        EncodeKeysCharacterised(c.keyframes, isBoolean);
    }
  }

  /** A successful run over `n` axes holds, at every axis, that axis's own channel. */
  lemma {:induction false} EncodeAxesPrefix(curves: seq<FCurve>, name: string, isBoolean: bool, fallback: seq<Value>, n: nat, a: nat)
    requires a < n <= |fallback| && EncodeAxes(curves, name, isBoolean, fallback, n).Success?
    ensures AxisChannel(curves, name, a, isBoolean, fallback[a]) == Success(EncodeAxes(curves, name, isBoolean, fallback, n).value[a])
  {
    if a < n - 1 { EncodeAxesPrefix(curves, name, isBoolean, fallback, n - 1, a); }
  }

  /** Encoding fails exactly when some axis's first matching curve is not representable. */
  lemma {:induction false} EncodeAxesRejects(curves: seq<FCurve>, name: string, isBoolean: bool, fallback: seq<Value>, n: nat)
    requires n <= |fallback|
    ensures EncodeAxes(curves, name, isBoolean, fallback, n).Failure? <==>
      exists a :: 0 <= a < n && FindCurve(curves, name, a).Some? && !Representable(FindCurve(curves, name, a).value)
  {
    if n > 0 {
      EncodeAxesRejects(curves, name, isBoolean, fallback, n - 1);
      var c := FindCurve(curves, name, n - 1);
      var axisFails := c.Some? && !Representable(c.value);
      if c.Some? {
        EncodeKeysCharacterised(c.value.keyframes, isBoolean);
      }
      assert AxisChannel(curves, name, n - 1, isBoolean, fallback[n - 1]).Failure? <==> axisFails;
      if axisFails {
        assert EncodeAxes(curves, name, isBoolean, fallback, n).Failure?;
        var a := n - 1;
        assert 0 <= a < n && FindCurve(curves, name, a).Some? && !Representable(FindCurve(curves, name, a).value);
        assert exists a :: 0 <= a < n && FindCurve(curves, name, a).Some? && !Representable(FindCurve(curves, name, a).value);
      } else if EncodeAxes(curves, name, isBoolean, fallback, n - 1).Failure? {
        var a :| 0 <= a < n - 1 && FindCurve(curves, name, a).Some? && !Representable(FindCurve(curves, name, a).value);
        assert 0 <= a < n;
      }
    }
  }

  /** `write_animation` returns False, writing nothing, exactly when an axis's curve has an
      extrapolation other than constant or a keyframe interpolated other than constant or linear. */
  lemma EncodedRejects(curves: seq<FCurve>, name: string, axes: nat, isBoolean: bool, fallback: seq<Value>)
    requires 1 <= axes && |fallback| == axes
    ensures Encoded(curves, name, axes, isBoolean, fallback).Failure? <==>
      exists a :: 0 <= a < axes && FindCurve(curves, name, a).Some? && !Representable(FindCurve(curves, name, a).value)
  {
    EncodeAxesRejects(curves, name, isBoolean, fallback, axes);
  }

  // ----- the round trip -----

  /** A single constant keyframe on frame 0: what the reader collapses into a rest value. */
  predicate Collapsible(c: FCurve)
  {
    |c.keyframes| == 1 && c.keyframes[0].interpolation == "CONSTANT" && c.keyframes[0].frame == 0.0
  }

  /** A host point after being written and read back: a boolean property's value becomes 0 or 1. */
  function Reread(k: HostKeyframe, isBoolean: bool): HostKeyframe
  {
    HostKeyframe(k.frame, AsReal(ExportedValue(k.value, isBoolean)), k.interpolation)
  }

  /** The curves reading back the first `n` written axes creates: one per axis whose first
      matching curve is not collapsible, with its points re-read. */
  function Reimported(curves: seq<FCurve>, name: string, isBoolean: bool, n: nat): seq<FCurve>
  {
    if n == 0 then []
    else
      Reimported(curves, name, isBoolean, n - 1)
      + match FindCurve(curves, name, n - 1)
        case None => []
        case Some(c) =>
          if Collapsible(c) then []
          else [FCurve(name, n - 1, NewCurveExtrapolation, seq(|c.keyframes|, k requires 0 <= k < |c.keyframes| => Reread(c.keyframes[k], isBoolean)))]
  }

  /** The rest value reading back a written axis sets: the current value when the axis had no
      curve, else the curve's first value. */
  function RereadRest(curves: seq<FCurve>, name: string, isBoolean: bool, fallback: Value, a: nat): Value
    requires FindCurve(curves, name, a).Some? ==> |FindCurve(curves, name, a).value.keyframes| > 0
  {
    match FindCurve(curves, name, a)
    case None => fallback
    case Some(c) => ExportedValue(c.keyframes[0].value, isBoolean)
  }

  lemma {:induction false} CurvesForReimported(curves: seq<FCurve>, name: string, isBoolean: bool, fallback: seq<Value>,
                                              hostDefault: string, chs: seq<Channel>, n: nat)
    requires n <= |chs| == |fallback|
    requires EncodeAxes(curves, name, isBoolean, fallback, |chs|) == Success(chs)
    ensures CurvesFor(name, chs, hostDefault, n) == Reimported(curves, name, isBoolean, n)
  {
    if n > 0 {
      CurvesForReimported(curves, name, isBoolean, fallback, hostDefault, chs, n - 1);
      var a := n - 1;
      EncodeAxesPrefix(curves, name, isBoolean, fallback, |chs|, a);
      match FindCurve(curves, name, a)
      case None =>
      case Some(c) =>
        EncodeKeysCharacterised(c.keyframes, isBoolean);
        assert IsStatic(chs[a]) <==> Collapsible(c);
        if !Collapsible(c) {
          assert AxisCurve(name, a, chs[a], hostDefault).keyframes
              == seq(|c.keyframes|, k requires 0 <= k < |c.keyframes| => Reread(c.keyframes[k], isBoolean));
        }
    }
  }

  /** Writing a property and reading the result back: the reader creates a curve for exactly the
      axes whose curve is not a single constant keyframe on frame 0, holding that curve's points
      (booleans as 0 or 1), and sets each axis's rest value to its current value when it had no
      curve (the static shortcut undoes the fallback) or to the curve's first value. */
  lemma EncodeDecodeRoundTrip(curves: seq<FCurve>, name: string, axes: nat, isBoolean: bool, fallback: seq<Value>, hostDefault: string)
    requires 1 <= axes && |fallback| == axes
    requires Encoded(curves, name, axes, isBoolean, fallback).Success?
    requires forall a :: 0 <= a < axes && FindCurve(curves, name, a).Some? ==> |FindCurve(curves, name, a).value.keyframes| > 0
    ensures Decode(Encoded(curves, name, axes, isBoolean, fallback).value, name, hostDefault)
         == Success(Decoded(Reimported(curves, name, isBoolean, axes),
                            RestOf(seq(axes, a requires 0 <= a < axes => RereadRest(curves, name, isBoolean, fallback[a], a)))))
  {
    var p := Encoded(curves, name, axes, isBoolean, fallback).value;
    var chs: seq<Channel> := EncodeAxes(curves, name, isBoolean, fallback, axes).value;
    forall a | 0 <= a < axes
      ensures |chs[a]| > 0 && chs[a][0].withValue == RereadRest(curves, name, isBoolean, fallback[a], a)
    {
      EncodeAxesPrefix(curves, name, isBoolean, fallback, axes, a);
      match FindCurve(curves, name, a)
      case None =>
      case Some(c) => EncodeKeysCharacterised(c.keyframes, isBoolean);
    }
    if axes > 1 {
      assert p == Axes(chs);
    } else {
      assert p == Bare(chs[0]) && |chs[0]| > 0 && chs == [chs[0]];
    }
    assert AxesOf(p) == Success(chs);
    assert FirstEmptyAxis(chs, 0).None?;
    CurvesForReimported(curves, name, isBoolean, fallback, hostDefault, chs, axes);
    assert seq(|chs|, a requires 0 <= a < |chs| && |chs[a]| > 0 => chs[a][0].withValue)
        == seq(axes, a requires 0 <= a < axes => RereadRest(curves, name, isBoolean, fallback[a], a));
  }

  /** For a property that is not boolean, every recreated curve is the exported one itself. */
  lemma {:induction false} ReimportedAreOriginals(curves: seq<FCurve>, name: string, n: nat)
    requires forall a :: 0 <= a < n && FindCurve(curves, name, a).Some? ==> Representable(FindCurve(curves, name, a).value)
    ensures forall i :: 0 <= i < |Reimported(curves, name, false, n)| ==>
      var c := Reimported(curves, name, false, n)[i];
      c.arrayIndex < n && FindCurve(curves, name, c.arrayIndex) == Some(c) && c in curves
  {
    if n > 0 {
      ReimportedAreOriginals(curves, name, n - 1);
      var a := n - 1;
      FindCurveIsFirst(curves, name, a);
      match FindCurve(curves, name, a)
      case None =>
      case Some(c) =>
        assert seq(|c.keyframes|, k requires 0 <= k < |c.keyframes| => Reread(c.keyframes[k], false)) == c.keyframes;
    }
  }

  /** An axis without any curve writes its current value; the reader takes that channel for
      the static shortcut, creating no curve, and sets the same value back. */
  lemma FallbackIsStaticShortcut(v: Value, name: string, hostDefault: string)
    ensures IsStatic(StaticChannel(v))
    ensures Decode(Bare(StaticChannel(v)), name, hostDefault) == Success(Decoded([], Scalar(v)))
  {
    DecodeBareChannel(StaticChannel(v), name, hostDefault);
  }
}
