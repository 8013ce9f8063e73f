/** What the flattened mesh resource says about the host mesh it came from. */
module MeshExportProperties {
  import opened Outcomes
  import opened Sequences
  import opened Problems
  import opened Meshes
  import opened MeshExport

  /** The material list succeeds exactly when every polygon's material does, holds those
      materials in polygon order, and otherwise reports the first polygon's problem. */
  lemma {:induction false} MaterialNamesPointwise(m: MeshData, n: nat)
    requires n <= |m.polygons|
    ensures MaterialNames(m, n).Success? <==> forall i :: 0 <= i < n ==> MaterialOf(m, m.polygons[i]).Success?
    ensures MaterialNames(m, n).Success? ==>
      forall i :: 0 <= i < n ==> MaterialNames(m, n).value[i] == MaterialOf(m, m.polygons[i]).value
    ensures MaterialNames(m, n).Failure? ==>
      exists i :: 0 <= i < n && MaterialOf(m, m.polygons[i]).Failure?
        && MaterialNames(m, n).error == MaterialOf(m, m.polygons[i]).error
        && forall j :: 0 <= j < i ==> MaterialOf(m, m.polygons[j]).Success?
  {
    if n > 0 {
      MaterialNamesPointwise(m, n - 1);
      if MaterialNames(m, n - 1).Success? && MaterialOf(m, m.polygons[n - 1]).Failure? {
        var i := n - 1;
        assert MaterialOf(m, m.polygons[i]).Failure? && MaterialNames(m, n).error == MaterialOf(m, m.polygons[i]).error;
      }
    }
  }

  /** A polygon's material is accepted exactly when the mesh has slots, its slot exists and
      holds a material, and that material is one of the three roles. */
  lemma MaterialRule(m: MeshData, p: Polygon)
    ensures MaterialOf(m, p).Success? <==>
      && |m.materialSlots| > 0 && p.materialIndex < |m.materialSlots|
      && m.materialSlots[p.materialIndex].Some?
      && m.materialSlots[p.materialIndex].value in SupportedMaterials
    ensures MaterialOf(m, p).Success? ==> MaterialOf(m, p).value == m.materialSlots[p.materialIndex].value
    ensures |m.materialSlots| == 0 ==> MaterialOf(m, p) == Failure(FacesWithoutMaterials)
  {
  }

  /** A position of the first `n` polygons' corners, as a witness pair. */
  ghost predicate UsedBy(m: HostMesh, n: nat, x: Vec3)
    requires n <= |m.polygons|
  {
    exists i, k :: 0 <= i < n && 0 <= k < |m.polygons[i].vertices| && x == m.vertices[m.polygons[i].vertices[k]]
  }

  lemma {:induction false} AllPositionsUsed(m: HostMesh, n: nat)
    requires n <= |m.polygons|
    ensures forall x :: x in AllPositions(m, n) <==> UsedBy(m, n, x)
  {
    if n > 0 {
      AllPositionsUsed(m, n - 1);
      var pos := PolygonPositions(m, m.polygons[n - 1]);
      forall x ensures x in AllPositions(m, n) <==> UsedBy(m, n, x) {
        if x in pos {
          var k :| 0 <= k < |pos| && pos[k] == x;
          var i := n - 1;
          assert 0 <= i < n && 0 <= k < |m.polygons[i].vertices| && x == m.vertices[m.polygons[i].vertices[k]];
        }
        if UsedBy(m, n, x) {
          var i, k :| 0 <= i < n && 0 <= k < |m.polygons[i].vertices| && x == m.vertices[m.polygons[i].vertices[k]];
          if i == n - 1 {
            assert pos[k] == x;
          } else {
            assert UsedBy(m, n - 1, x);
          }
        }
      }
    }
  }

  /** The exported locations list every position some polygon corner uses, once each, and
      nothing else (a vertex no polygon uses is dropped). */
  lemma FlattenedLocations(m: HostMesh)
    requires Flattened(m).Success?
    ensures NoDuplicates(Flattened(m).value.locations)
    ensures forall x :: x in Flattened(m).value.locations <==> UsedBy(m, |m.polygons|, x)
  {
    DistinctNoDuplicates(AllPositions(m, |m.polygons|));
    DistinctMembers(AllPositions(m, |m.polygons|));
    AllPositionsUsed(m, |m.polygons|);
  }

  /** Every index of a group is a valid location index. */
  predicate InRange(locs: seq<Vec3>, q: seq<nat>)
  {
    forall k :: 0 <= k < |q| ==> q[k] < |locs|
  }

  /** The positions an index list names. */
  function Resolve(locs: seq<Vec3>, q: seq<nat>): (r: seq<Vec3>)
    requires InRange(locs, q)
    ensures |r| == |q| && forall k :: 0 <= k < |q| ==> r[k] == locs[q[k]]
  {
    seq(|q|, k requires 0 <= k < |q| => locs[q[k]])
  }

  /** The corner positions of the polygons, among the first `|names|`, whose material is `material`. */
  function PositionsWith(m: HostMesh, names: seq<string>, material: string): seq<seq<Vec3>>
    requires |names| <= |m.polygons|
  {
    if |names| == 0 then []
    else
      var n := |names| - 1;
      PositionsWith(m, names[..n], material) + (if names[n] == material then [PolygonPositions(m, m.polygons[n])] else [])
  }

  /** Each selected index list resolves against `locs` to the polygon it was made from. */
  lemma {:induction false} SelectResolves(m: HostMesh, names: seq<string>, material: string, locs: seq<Vec3>)
    requires |names| <= |m.polygons| && Covers(m, |names|, locs)
    ensures |Select(m, names, material, locs)| == |PositionsWith(m, names, material)|
    ensures forall j :: 0 <= j < |Select(m, names, material, locs)| ==>
      InRange(locs, Select(m, names, material, locs)[j])
      && Resolve(locs, Select(m, names, material, locs)[j]) == PositionsWith(m, names, material)[j]
  {
    if |names| > 0 {
      var n := |names| - 1;
      SelectResolves(m, names[..n], material, locs);
      if names[n] == material {
        var q := IndicesIn(locs, m, n);
        assert InRange(locs, q);
        assert Resolve(locs, q) == PolygonPositions(m, m.polygons[n]);
      }
    }
  }

  /** The material groups of the flattened mesh: the key order lists each key once, the keys
      are exactly the materials polygons use, and each group holds, in visit order, exactly
      its material's polygons, every index valid and naming that polygon's corner positions. */
  lemma FlattenedGroups(m: HostMesh)
    requires Flattened(m).Success?
    ensures Keyed(Flattened(m).value)
    ensures forall n :: n in Flattened(m).value.materials <==>
      exists i :: 0 <= i < |m.polygons| && MaterialOf(m, m.polygons[i]) == Success(n)
    ensures forall n :: n in Flattened(m).value.materials ==>
      var group := Flattened(m).value.materials[n];
      var names := MaterialNames(m, |m.polygons|).value;
      && |group| == |PositionsWith(m, names, n)|
      && forall j :: 0 <= j < |group| ==>
           InRange(Flattened(m).value.locations, group[j])
           && Resolve(Flattened(m).value.locations, group[j]) == PositionsWith(m, names, n)[j]
  {
    var names := MaterialNames(m, |m.polygons|).value;
    var r := Flattened(m).value;
    DistinctNoDuplicates(names);
    DistinctMembers(names);
    MaterialNamesPointwise(m, |m.polygons|);
    CoversDistinct(m, |m.polygons|);
    forall n | n in r.materials
      ensures |r.materials[n]| == |PositionsWith(m, names, n)|
      ensures forall j :: 0 <= j < |r.materials[n]| ==>
        InRange(r.locations, r.materials[n][j]) && Resolve(r.locations, r.materials[n][j]) == PositionsWith(m, names, n)[j]
    {
      SelectResolves(m, names, n, r.locations);
    }
    forall n ensures n in r.materials <==> exists i :: 0 <= i < |m.polygons| && MaterialOf(m, m.polygons[i]) == Success(n) {
      if n in names {
        var i :| 0 <= i < |names| && names[i] == n;
        assert MaterialOf(m, m.polygons[i]) == Success(n);
      }
    }
  }
}
