/** Validating and describing a lamp's data on export. */
module Lights {
  import opened Outcomes
  import opened Problems
  import opened Animation
  import opened AnimationExport

  /** Host lamp data: its type and flags, its own animation curves and the current values of
      the properties the exporter writes. */
  datatype Lamp = Lamp(
    name: string,
    lampType: string,
    useSphere: bool,
    useSquare: bool,
    shadowMethod: string,
    falloffType: string,
    spotBlend: real,
    curves: seq<FCurve>,
    color: Triple,
    energy: Value,
    useNegative: Value,
    distance: Value,
    spotSize: Value)

  /** The light's falloff record. `multiplier` and `negative` are stored whatever `write_animation`
      returned: `None` is the JSON `false` it returns on failure. */
  datatype Falloff =
    | Sphere(multiplier: Option<Property>, negative: Option<Property>, radius: Property)
    | Cone(multiplier: Option<Property>, negative: Option<Property>, radius: Property, spotSize: Property)

  /** A light resource of the document. */
  datatype LightRecord = LightRecord(color: Property, falloff: Falloff)

  /** A stored `write_animation` result, unchecked. */
  function Stored(r: Result<Property, Problem>): Option<Property>
  {
    if r.Success? then Some(r.value) else None
  }

  /** The truthiness test `if not ...: return False` applied to a `write_animation` result:
      `False` fails, and so does the bare channel `[]`, which Python also takes as false. */
  function Checked(r: Result<Property, Problem>): (c: Result<Property, Problem>)
    ensures c.Success? <==> r.Success? && r.value != Bare([])
    ensures c.Success? ==> c == r
    ensures r.Failure? ==> c == r
  {
    if r.Failure? then r else if r.value == Bare([]) then Failure(EmptyChannel) else r
  }

  /** The encodings of a lamp's one-axis properties. */
  function Energy(lamp: Lamp): Result<Property, Problem>
  {
    Encoded(lamp.curves, "energy", 1, false, [lamp.energy])
  }

  function Negative(lamp: Lamp): Result<Property, Problem>
  {
    Encoded(lamp.curves, "use_negative", 1, true, [lamp.useNegative])
  }

  function Distance(lamp: Lamp): Result<Property, Problem>
  {
    Encoded(lamp.curves, "distance", 1, false, [lamp.distance])
  }

  function SpotSize(lamp: Lamp): Result<Property, Problem>
  {
    Encoded(lamp.curves, "spot_size", 1, false, [lamp.spotSize])
  }

  function Color(lamp: Lamp): Result<Property, Problem>
  {
    Encoded(lamp.curves, "color", 3, false, Components(lamp.color))
  }

  /** The light resource a lamp is exported as, or the problem that stops the export. */
  function LightOf(lamp: Lamp): Result<LightRecord, Problem>
  {
    var color := Checked(Color(lamp));
    if color.Failure? then Failure(color.error)
    else if lamp.lampType == "POINT" then
      if !lamp.useSphere then Failure(NonSpherical)
      else if lamp.shadowMethod != "NOSHADOW" then Failure(HasShadow)
      else if lamp.falloffType != "INVERSE_LINEAR" then Failure(UnsupportedFalloff(lamp.falloffType))
      else
        var radius := Checked(Distance(lamp));
        if radius.Failure? then Failure(radius.error)
        else Success(LightRecord(color.value, Sphere(Stored(Energy(lamp)), Stored(Negative(lamp)), radius.value)))
    else if lamp.lampType == "SPOT" then
      if !lamp.useSphere then Failure(NonSpherical)
      else if lamp.useSquare then Failure(IsSquare)
      else if lamp.shadowMethod != "NOSHADOW" then Failure(HasShadow)
      else if lamp.falloffType != "INVERSE_LINEAR" then Failure(UnsupportedFalloff(lamp.falloffType))
      else if lamp.spotBlend != 1.0 then Failure(SpotBlendNotOne)
      else
        var radius := Checked(Distance(lamp));
        var spotSize := Checked(SpotSize(lamp));
        if radius.Failure? then Failure(radius.error)
        else if spotSize.Failure? then Failure(spotSize.error)
        else Success(LightRecord(color.value, Cone(Stored(Energy(lamp)), Stored(Negative(lamp)), radius.value, spotSize.value)))
    // the message names `object.type`, which is always "LAMP" here
    else Failure(UnsupportedLampType("LAMP"))
  }

  /** The lamp branch of the export walk, run the first time a lamp's data name is seen. */
  method DescribeLight(lamp: Lamp) returns (r: Result<LightRecord, Problem>)
    ensures r == LightOf(lamp)
  {
    var color := WriteAnimation(lamp.curves, "color", 3, false, Components(lamp.color));
    if color.Failure? || color.value == Bare([]) {
      return Failure(Checked(color).error);
    }
    if lamp.lampType == "POINT" {
      if !lamp.useSphere {
        return Failure(NonSpherical);
      }
      if lamp.shadowMethod != "NOSHADOW" {
        return Failure(HasShadow);
      }
      if lamp.falloffType != "INVERSE_LINEAR" {
        return Failure(UnsupportedFalloff(lamp.falloffType));
      }
      var multiplier := WriteAnimation(lamp.curves, "energy", 1, false, [lamp.energy]);
      var negative := WriteAnimation(lamp.curves, "use_negative", 1, true, [lamp.useNegative]);
      var radius := WriteAnimation(lamp.curves, "distance", 1, false, [lamp.distance]);
      if radius.Failure? || radius.value == Bare([]) {
        return Failure(Checked(radius).error);
      }
      r := Success(LightRecord(color.value, Sphere(Stored(multiplier), Stored(negative), radius.value)));
    } else if lamp.lampType == "SPOT" {
      if !lamp.useSphere {
        return Failure(NonSpherical);
      }
      if lamp.useSquare {
        return Failure(IsSquare);
      }
      if lamp.shadowMethod != "NOSHADOW" {
        return Failure(HasShadow);
      }
      if lamp.falloffType != "INVERSE_LINEAR" {
        return Failure(UnsupportedFalloff(lamp.falloffType));
      }
      if lamp.spotBlend != 1.0 {
        return Failure(SpotBlendNotOne);
      }
      var multiplier := WriteAnimation(lamp.curves, "energy", 1, false, [lamp.energy]);
      var negative := WriteAnimation(lamp.curves, "use_negative", 1, true, [lamp.useNegative]);
      var radius := WriteAnimation(lamp.curves, "distance", 1, false, [lamp.distance]);
      var spotSize := WriteAnimation(lamp.curves, "spot_size", 1, false, [lamp.spotSize]);
      if radius.Failure? || radius.value == Bare([]) {
        return Failure(Checked(radius).error);
      }
      if spotSize.Failure? || spotSize.value == Bare([]) {
        return Failure(Checked(spotSize).error);
      }
      r := Success(LightRecord(color.value, Cone(Stored(multiplier), Stored(negative), radius.value, spotSize.value)));
    } else {
      r := Failure(UnsupportedLampType("LAMP"));
    }
  }

  /** The flags a light must carry: an accepted light is a point or spot lamp with a sphere,
      no shadow and inverse-linear falloff, and a spot lamp also has a round cone with spot
      blend 1; conversely every such lamp whose colour, radius and spot size encode to
      something truthy is accepted, whatever its multiplier and negative flag encode to. */
  lemma LightRules(lamp: Lamp)
    ensures LightOf(lamp).Success? <==>
      && Checked(Color(lamp)).Success?
      && (lamp.lampType == "POINT" || lamp.lampType == "SPOT")
      && lamp.useSphere && lamp.shadowMethod == "NOSHADOW" && lamp.falloffType == "INVERSE_LINEAR"
      && (lamp.lampType == "SPOT" ==> !lamp.useSquare && lamp.spotBlend == 1.0 && Checked(SpotSize(lamp)).Success?)
      && Checked(Distance(lamp)).Success?
    ensures LightOf(lamp).Success? ==>
      && LightOf(lamp).value.color == Color(lamp).value
      && (LightOf(lamp).value.falloff.Sphere? <==> lamp.lampType == "POINT")
      && LightOf(lamp).value.falloff.radius == Distance(lamp).value
      && LightOf(lamp).value.falloff.multiplier == Stored(Energy(lamp))
      && LightOf(lamp).value.falloff.negative == Stored(Negative(lamp))
      && (LightOf(lamp).value.falloff.Cone? ==> LightOf(lamp).value.falloff.spotSize == SpotSize(lamp).value)
  {
  }

  /** A colour encodes to three channels, so only a rejected curve can fail it. */
  lemma ColorNeverFalsy(lamp: Lamp)
    ensures Checked(Color(lamp)) == Color(lamp)
  {
    if Color(lamp).Success? {
      assert Color(lamp).value.Axes?;
    }
  }

  /** A multiplier that cannot be encoded does not stop the light: it is stored as `false`. */
  lemma UncheckedMultiplier(lamp: Lamp)
    requires LightOf(lamp).Success? && Energy(lamp).Failure?
    ensures LightOf(lamp).value.falloff.multiplier == None
  {
  }
}
