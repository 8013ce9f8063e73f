/** Flattening a host mesh into a mesh resource on export. */
module MeshExport {
  import opened Outcomes
  import opened Sequences
  import opened Problems
  import opened Meshes

  /** The material a polygon is exported under, or why it cannot be. */
  function MaterialOf(m: MeshData, p: Polygon): Result<string, Problem>
  {
    if |m.materialSlots| == 0 then Failure(FacesWithoutMaterials)
    else if p.materialIndex >= |m.materialSlots| then Failure(MaterialSlotOutOfRange)
    else
      match m.materialSlots[p.materialIndex]
      case None => Failure(FacesWithoutMaterials)
      case Some(name) => if name in SupportedMaterials then Success(name) else Failure(UnsupportedMaterial(name))
  }

  /** The materials of the first `n` polygons, or the first polygon's problem. */
  function MaterialNames(m: MeshData, n: nat): (r: Result<seq<string>, Problem>)
    requires n <= |m.polygons|
    ensures r.Success? ==> |r.value| == n
  {
    if n == 0 then Success([])
    else
      match MaterialNames(m, n - 1)
      case Failure(e) => Failure(e)
      case Success(names) =>
        match MaterialOf(m, m.polygons[n - 1])
        case Failure(e) => Failure(e)
        case Success(name) => Success(names + [name])
  }

  /** The vertex positions of the first `n` polygons, polygon after polygon. */
  function AllPositions(m: HostMesh, n: nat): seq<Vec3>
    requires n <= |m.polygons|
  {
    if n == 0 then [] else AllPositions(m, n - 1) + PolygonPositions(m, m.polygons[n - 1])
  }

  predicate AllIn(xs: seq<Vec3>, locs: seq<Vec3>)
  {
    forall k :: 0 <= k < |xs| ==> xs[k] in locs
  }

  /** Polygon `i` rewritten as indices into `locs`. */
  function IndicesIn(locs: seq<Vec3>, m: HostMesh, i: nat): (r: seq<nat>)
    requires i < |m.polygons| && AllIn(PolygonPositions(m, m.polygons[i]), locs)
  {
    var pos := PolygonPositions(m, m.polygons[i]);
    seq(|pos|, k requires 0 <= k < |pos| => IndexOf(locs, pos[k]))
  }

  /** Every position of the first `n` polygons is in `locs`. */
  predicate Covers(m: HostMesh, n: nat, locs: seq<Vec3>)
    requires n <= |m.polygons|
  {
    forall t :: 0 <= t < n ==> AllIn(PolygonPositions(m, m.polygons[t]), locs)
  }

  /** The rewritten polygons, among the first `|names|`, whose material is `material`, in visit order. */
  function Select(m: HostMesh, names: seq<string>, material: string, locs: seq<Vec3>): seq<seq<nat>>
    requires |names| <= |m.polygons| && Covers(m, |names|, locs)
  {
    if |names| == 0 then []
    else
      var n := |names| - 1;
      Select(m, names[..n], material, locs) + (if names[n] == material then [IndicesIn(locs, m, n)] else [])
  }

  lemma {:induction false} AllPositionsCover(m: HostMesh, n: nat)
    requires n <= |m.polygons|
    ensures Covers(m, n, AllPositions(m, n))
  {
    if n > 0 {
      AllPositionsCover(m, n - 1);
      var prev := AllPositions(m, n - 1);
      var all := AllPositions(m, n);
      assert forall k :: 0 <= k < |prev| ==> prev[k] == all[k];
      forall t | 0 <= t < n ensures AllIn(PolygonPositions(m, m.polygons[t]), all) {
        if t == n - 1 {
          var pos := PolygonPositions(m, m.polygons[t]);
          assert forall k :: 0 <= k < |pos| ==> pos[k] == all[|prev| + k];
        }
      }
    }
  }

  lemma CoversDistinct(m: HostMesh, n: nat)
    requires n <= |m.polygons|
    ensures Covers(m, n, Distinct(AllPositions(m, n)))
  {
    AllPositionsCover(m, n);
    DistinctMembers(AllPositions(m, n));
  }

  /** The flattened mesh: every distinct vertex position once, in first-use order, and each
      material's polygons as indices into that list. */
  function Flattened(m: HostMesh): Result<MeshResource, Problem>
  {
    match MaterialNames(m, |m.polygons|)
    case Failure(e) => Failure(e)
    case Success(names) =>
      var locs := Distinct(AllPositions(m, |m.polygons|));
      CoversDistinct(m, |m.polygons|);
      var order := Distinct(names);
      Success(MeshResource(locs, order, map name | name in order :: Select(m, names, name, locs)))
  }

  // ----- facts the flattening loop relies on -----

  lemma {:induction false} MaterialNamesFailureSticks(m: MeshData, n: nat, total: nat)
    requires n <= total <= |m.polygons| && MaterialNames(m, n).Failure?
    ensures MaterialNames(m, total) == MaterialNames(m, n)
    decreases total
  {
    if n < total { MaterialNamesFailureSticks(m, n, total - 1); }
  }

  lemma MaterialNamesSnoc(m: MeshData, i: nat, names: seq<string>, name: string)
    requires i < |m.polygons| && MaterialNames(m, i) == Success(names)
    requires MaterialOf(m, m.polygons[i]) == Success(name)
    ensures MaterialNames(m, i + 1) == Success(names + [name])
  {
  }

  /** Rewriting against a longer location list changes no index. */
  lemma {:induction false} SelectGrow(m: HostMesh, names: seq<string>, material: string, locs: seq<Vec3>, more: seq<Vec3>)
    requires |names| <= |m.polygons| && Covers(m, |names|, locs) && locs <= more
    ensures Covers(m, |names|, more)
    ensures Select(m, names, material, more) == Select(m, names, material, locs)
  {
    forall t, k | 0 <= t < |names| && 0 <= k < |PolygonPositions(m, m.polygons[t])|
      ensures PolygonPositions(m, m.polygons[t])[k] in more
    {
      IndexOfExtend(locs, more, PolygonPositions(m, m.polygons[t])[k]);
    }
    if |names| > 0 {
      var n := |names| - 1;
      SelectGrow(m, names[..n], material, locs, more);
      var pos := PolygonPositions(m, m.polygons[n]);
      forall k | 0 <= k < |pos| ensures IndexOf(more, pos[k]) == IndexOf(locs, pos[k]) {
        IndexOfExtend(locs, more, pos[k]);
      }
      assert IndicesIn(more, m, n) == IndicesIn(locs, m, n);
    }
  }

  /** One more polygon, visited after the location list grew from `before` to `after`. */
  lemma SelectStep(m: HostMesh, names: seq<string>, name: string, before: seq<Vec3>, after: seq<Vec3>)
    requires |names| < |m.polygons| && Covers(m, |names|, before) && before <= after
    requires Covers(m, |names| + 1, after)
    ensures forall n :: (Select(m, names + [name], n, after) ==
      Select(m, names, n, before) + (if n == name then [IndicesIn(after, m, |names|)] else []))
  {
    assert (names + [name])[..|names|] == names;
    forall n ensures Select(m, names, n, after) == Select(m, names, n, before) {
      SelectGrow(m, names, n, before, after);
    }
  }

  lemma {:induction false} SelectAbsent(m: HostMesh, names: seq<string>, material: string, locs: seq<Vec3>)
    requires |names| <= |m.polygons| && Covers(m, |names|, locs) && material !in names
    ensures Select(m, names, material, locs) == []
  {
    if |names| > 0 {
      SelectAbsent(m, names[..|names| - 1], material, locs);
    }
  }

  /** `indices` name, position by position, the entries of `locs` equal to `pos`. */
  predicate Resolves(locs: seq<Vec3>, indices: seq<nat>, pos: seq<Vec3>)
  {
    |indices| == |pos| && forall t :: 0 <= t < |pos| ==> indices[t] < |locs| && locs[indices[t]] == pos[t]
  }

  lemma ResolvesStep(locs: seq<Vec3>, more: seq<Vec3>, indices: seq<nat>, pos: seq<Vec3>, index: nat)
    requires Resolves(locs, indices, pos) && locs <= more && index < |more|
    ensures Resolves(more, indices + [index], pos + [more[index]])
  {
  }

  /** Against a list without duplicates, resolving indices are the first-occurrence indices. */
  lemma ResolvesIndices(locs: seq<Vec3>, indices: seq<nat>, pos: seq<Vec3>)
    requires Resolves(locs, indices, pos) && NoDuplicates(locs)
    ensures AllIn(pos, locs)
    ensures indices == seq(|pos|, k requires 0 <= k < |pos| => IndexOf(locs, pos[k]))
  {
    forall t | 0 <= t < |pos| ensures IndexOf(locs, pos[t]) == indices[t] {
      IndexOfUnique(locs, indices[t]);
    }
  }

  /** The vertex loop of one polygon, over the positions its vertex indices name: appends
      each position not yet in `locations` and rewrites the polygon as indices into the grown list. */
  method InternPositions(pos: seq<Vec3>, locations: seq<Vec3>, ghost seen: seq<Vec3>)
      returns (locations': seq<Vec3>, indices: seq<nat>)
    requires locations == Distinct(seen)
    ensures locations' == Distinct(seen + pos)
    ensures Resolves(locations', indices, pos)
  {
    locations' := locations;
    indices := [];
    assert seen + pos[..0] == seen;
    var k := 0;
    while k < |pos|
      invariant 0 <= k <= |pos|
      invariant locations' == Distinct(seen + pos[..k])
      invariant Resolves(locations', indices, pos[..k])
    {
      var location := pos[k];
      PrefixStep(seen, pos, k);
      DistinctSnoc(seen + pos[..k], location);
      ghost var was := locations';
      if location !in locations' {
        locations' := locations' + [location];
      }
      var index := IndexOf(locations', location);
      ResolvesStep(was, locations', indices, pos[..k], index);
      TakeStep(pos, k);
      indices := indices + [index];
      k := k + 1;
    }
    assert pos[..k] == pos;
  }

  /** The material groups built so far agree with the specification: keys in first-use
      order, each group the selected polygons rewritten against `locs`. */
  ghost predicate GroupsAgree(m: HostMesh, names: seq<string>, order: seq<string>, materials: map<string, seq<seq<nat>>>, locs: seq<Vec3>)
    requires |names| <= |m.polygons| && Covers(m, |names|, locs)
  {
    && order == Distinct(names)
    && (forall n :: n in materials <==> n in order)
    && (forall n :: n in order ==> materials[n] == Select(m, names, n, locs))
  }

  /** Appending polygon `|names|`, of material `name`, to its group keeps the groups in agreement. */
  lemma GroupsStep(m: HostMesh, names: seq<string>, name: string, order: seq<string>,
                   materials: map<string, seq<seq<nat>>>, before: seq<Vec3>, after: seq<Vec3>, indices: seq<nat>)
    requires |names| < |m.polygons| && Covers(m, |names|, before) && before <= after
    requires Covers(m, |names| + 1, after)
    requires GroupsAgree(m, names, order, materials, before)
    requires indices == IndicesIn(after, m, |names|)
    ensures var order' := if name in materials then order else order + [name];
            var group := if name in materials then materials[name] else [];
            GroupsAgree(m, names + [name], order', materials[name := group + [indices]], after)
  {
    DistinctSnoc(names, name);
    DistinctMembers(names);
    if name !in materials {
      SelectAbsent(m, names, name, before);
    }
    SelectStep(m, names, name, before, after);
  }

  /** The polygon loop of the export walk's mesh branch: checks each polygon's material,
      interns its vertex positions, and appends its index list to its material's group. */
  method FlattenMesh(m: HostMesh) returns (r: Result<MeshResource, Problem>)
    ensures r == Flattened(m)
  {
    var locations: seq<Vec3> := [];
    var order: seq<string> := [];
    var materials: map<string, seq<seq<nat>>> := map[];
    ghost var names: seq<string> := [];
    var i := 0;
    while i < |m.polygons|
      invariant 0 <= i <= |m.polygons|
      invariant MaterialNames(m, i) == Success(names)
      invariant locations == Distinct(AllPositions(m, i))
      invariant Covers(m, i, locations)
      invariant GroupsAgree(m, names, order, materials, locations)
    {
      var polygon := m.polygons[i];
      if |m.materialSlots| > 0 && polygon.materialIndex >= |m.materialSlots| {
        MaterialNamesFailureSticks(m, i + 1, |m.polygons|);
        return Failure(MaterialSlotOutOfRange);
      }
      var material := if |m.materialSlots| > 0 then m.materialSlots[polygon.materialIndex] else None;
      if material.None? {
        MaterialNamesFailureSticks(m, i + 1, |m.polygons|);
        return Failure(FacesWithoutMaterials);
      }
      var name := material.value;
      if name !in ["occluder", "walk", "none"] {
        MaterialNamesFailureSticks(m, i + 1, |m.polygons|);
        return Failure(UnsupportedMaterial(name));
      }
      MaterialNamesSnoc(m, i, names, name);
      ghost var before := locations;
      var pos := PolygonPositions(m, polygon);
      var indices;
      locations, indices := InternPositions(pos, locations, AllPositions(m, i));
      assert AllPositions(m, i + 1) == AllPositions(m, i) + pos;
      DistinctPrefix(AllPositions(m, i), pos);
      CoversDistinct(m, i + 1);
      DistinctNoDuplicates(AllPositions(m, i + 1));
      ResolvesIndices(locations, indices, pos);
      assert indices == IndicesIn(locations, m, i);
      GroupsStep(m, names, name, order, materials, before, locations, indices);
      var group := if name in materials then materials[name] else [];
      if name !in materials {
        order := order + [name];
      }
      materials := materials[name := group + [indices]];
      names := names + [name];
      i := i + 1;
      assert MaterialNames(m, i) == Success(names);
    }
    assert materials == map n | n in order :: Select(m, names, n, locations);
    r := Success(MeshResource(locations, order, materials));
  }
}
