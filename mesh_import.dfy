/** Rebuilding host mesh data from a mesh resource on import. */
module MeshImport {
  import opened Outcomes
  import opened Sequences
  import opened Problems
  import opened Meshes

  /** The first vertex index, in order, that names no location. */
  function FirstOutOfRange(count: nat, polygon: seq<nat>): (r: Option<nat>)
    ensures r.None? <==> forall k :: 0 <= k < |polygon| ==> polygon[k] < count
    ensures r.Some? ==> r.value >= count
    ensures r.Some? ==> exists k :: (0 <= k < |polygon| && polygon[k] == r.value
      && forall j :: 0 <= j < k ==> polygon[j] < count)
  {
    if |polygon| == 0 then None
    else if polygon[0] >= count then Some(polygon[0])
    else
      var rest := FirstOutOfRange(count, polygon[1..]);
      assert forall k :: 0 < k < |polygon| ==> polygon[k] == polygon[1..][k - 1];
      if rest.None? then None
      else
        var k' :| 0 <= k' < |polygon[1..]| && polygon[1..][k'] == rest.value && forall j :: 0 <= j < k' ==> polygon[1..][j] < count;
        assert polygon[k' + 1] == rest.value;
        rest
  }

  /** The faces of one material group, each given material slot `slot`, or the first
      vertex index that names no location. */
  function GroupFaces(count: nat, material: string, slot: nat, polygons: seq<seq<nat>>): (r: Result<seq<Polygon>, ImportError>)
    ensures r.Success? ==> |r.value| == |polygons|
  {
    if |polygons| == 0 then Success([])
    else
      var n := |polygons| - 1;
      match GroupFaces(count, material, slot, polygons[..n])
      case Failure(e) => Failure(e)
      case Success(faces) =>
        match FirstOutOfRange(count, polygons[n])
        case Some(v) => Failure(VertexOutOfRange(material, v))
        case None => Success(faces + [Polygon(slot, polygons[n])])
  }

  /** The faces of the first `j` material groups, in key order; group `g`'s faces take slot `g`. */
  function Faces(res: MeshResource, j: nat): Result<seq<Polygon>, ImportError>
    requires Keyed(res) && j <= |res.materialOrder|
  {
    if j == 0 then Success([])
    else
      match Faces(res, j - 1)
      case Failure(e) => Failure(e)
      case Success(faces) =>
        var name := res.materialOrder[j - 1];
        match GroupFaces(|res.locations|, name, j - 1, res.materials[name])
        case Failure(e) => Failure(e)
        case Success(more) => Success(faces + more)
  }

  /** The slot list: one slot per key, holding the material when the host has one of that name. */
  function Slots(order: seq<string>, existing: set<string>): (r: seq<Option<string>>)
    ensures |r| == |order|
    ensures forall j :: 0 <= j < |order| ==> r[j] == if order[j] in existing then Some(order[j]) else None
  {
    seq(|order|, j requires 0 <= j < |order| => if order[j] in existing then Some(order[j]) else None)
  }

  /** The rebuilt host mesh: one vertex per location, one slot per material group, and every
      group's polygons as faces in that slot. */
  function Built(meshName: string, res: MeshResource, existing: set<string>): Result<MeshData, ImportError>
    requires Keyed(res)
  {
    match Faces(res, |res.materialOrder|)
    case Failure(e) => Failure(e)
    case Success(faces) => Success(MeshData(meshName, res.locations, Slots(res.materialOrder, existing), faces))
  }

  lemma {:induction false} GroupFacesFailureSticks(count: nat, material: string, slot: nat, polygons: seq<seq<nat>>, n: nat)
    requires n <= |polygons| && GroupFaces(count, material, slot, polygons[..n]).Failure?
    ensures GroupFaces(count, material, slot, polygons) == GroupFaces(count, material, slot, polygons[..n])
    decreases |polygons| - n
  {
    if n < |polygons| {
      var m := |polygons| - 1;
      if n < m {
        assert polygons[..m][..n] == polygons[..n];
        GroupFacesFailureSticks(count, material, slot, polygons[..m], n);
      }
    } else {
      assert polygons[..n] == polygons;
    }
  }

  lemma {:induction false} FacesFailureSticks(res: MeshResource, j: nat, total: nat)
    requires Keyed(res) && j <= total <= |res.materialOrder| && Faces(res, j).Failure?
    ensures Faces(res, total) == Faces(res, j)
    decreases total
  {
    if j < total { FacesFailureSticks(res, j, total - 1); }
  }

  /** The vertex loop of one polygon: looks up each vertex index among the locations. */
  method CheckPolygon(count: nat, polygon: seq<nat>) returns (bad: Option<nat>)
    ensures bad == FirstOutOfRange(count, polygon)
  {
    var k := 0;
    while k < |polygon|
      invariant 0 <= k <= |polygon|
      invariant FirstOutOfRange(count, polygon) == FirstOutOfRange(count, polygon[k..])
    {
      assert polygon[k..][1..] == polygon[k + 1..];
      if polygon[k] >= count {
        return Some(polygon[k]);
      }
      k := k + 1;
    }
    return None;
  }

  /** The polygon loop of one material group. */
  method BuildGroup(count: nat, material: string, slot: nat, polygons: seq<seq<nat>>) returns (r: Result<seq<Polygon>, ImportError>)
    ensures r == GroupFaces(count, material, slot, polygons)
  {
    var faces: seq<Polygon> := [];
    var i := 0;
    while i < |polygons|
      invariant 0 <= i <= |polygons|
      invariant GroupFaces(count, material, slot, polygons[..i]) == Success(faces)
    {
      assert polygons[..i + 1][..i] == polygons[..i];
      var bad := CheckPolygon(count, polygons[i]);
      if bad.Some? {
        GroupFacesFailureSticks(count, material, slot, polygons, i + 1);
        return Failure(VertexOutOfRange(material, bad.value));
      }
      faces := faces + [Polygon(slot, polygons[i])];
      i := i + 1;
    }
    assert polygons[..i] == polygons;
    r := Success(faces);
  }

  lemma FacesStep(res: MeshResource, j: nat, faces: seq<Polygon>, more: seq<Polygon>)
    requires Keyed(res) && j < |res.materialOrder| && Faces(res, j) == Success(faces)
    requires GroupFaces(|res.locations|, res.materialOrder[j], j, Group(res, j)) == Success(more)
    ensures Faces(res, j + 1) == Success(faces + more)
  {
  }

  /** The mesh import loop body: a vertex per location, then each material group in key
      order, its material looked up by name and its polygons made faces in its slot. */
  method BuildMesh(meshName: string, res: MeshResource, existing: set<string>) returns (r: Result<MeshData, ImportError>)
    requires Keyed(res)
    ensures r == Built(meshName, res, existing)
  {
    var vertices := res.locations;
    var ordered: seq<Option<string>> := [];
    var faces: seq<Polygon> := [];
    var j := 0;
    while j < |res.materialOrder|
      invariant 0 <= j <= |res.materialOrder|
      invariant Faces(res, j) == Success(faces)
      invariant |ordered| == j
      invariant forall g :: 0 <= g < j ==> ordered[g] == Slots(res.materialOrder, existing)[g]
    {
      var name := res.materialOrder[j];
      var slot := if name in existing then Some(name) else None;
      ordered := ordered + [slot];
      var more := BuildGroup(|vertices|, name, |ordered| - 1, res.materials[name]);
      if more.Failure? {
        FacesFailureSticks(res, j + 1, |res.materialOrder|);
        return Failure(more.error);
      }
      FacesStep(res, j, faces, more.value);
      faces := faces + more.value;
      j := j + 1;
    }
    assert ordered == Slots(res.materialOrder, existing);
    r := Success(MeshData(meshName, vertices, ordered, faces));
  }

  /** Every index of every polygon of a group names one of `count` locations. */
  predicate AllIndicesIn(count: nat, polygons: seq<seq<nat>>)
  {
    forall q, k :: 0 <= q < |polygons| && 0 <= k < |polygons[q]| ==> polygons[q][k] < count
  }

  /** A group's faces are built exactly when its indices are all valid, as its polygons in
      order, each in the group's slot; otherwise the error names an invalid index of the group. */
  lemma {:induction false} GroupFacesCharacterised(count: nat, material: string, slot: nat, polygons: seq<seq<nat>>)
    ensures GroupFaces(count, material, slot, polygons).Success? <==> AllIndicesIn(count, polygons)
    ensures GroupFaces(count, material, slot, polygons).Success? ==>
      GroupFaces(count, material, slot, polygons).value == seq(|polygons|, q requires 0 <= q < |polygons| => Polygon(slot, polygons[q]))
    ensures GroupFaces(count, material, slot, polygons).Failure? ==>
      exists q, k :: 0 <= q < |polygons| && 0 <= k < |polygons[q]| && polygons[q][k] >= count
        && GroupFaces(count, material, slot, polygons).error == VertexOutOfRange(material, polygons[q][k])
  {
    if |polygons| > 0 {
      var n := |polygons| - 1;
      var init := polygons[..n];
      GroupFacesCharacterised(count, material, slot, init);
      assert forall q :: 0 <= q < n ==> init[q] == polygons[q];
      var r := GroupFaces(count, material, slot, polygons);
      if GroupFaces(count, material, slot, init).Failure? {
        var q, k :| 0 <= q < |init| && 0 <= k < |init[q]| && init[q][k] >= count
          && GroupFaces(count, material, slot, init).error == VertexOutOfRange(material, init[q][k]);
        assert polygons[q][k] >= count && r.error == VertexOutOfRange(material, polygons[q][k]);
      } else if FirstOutOfRange(count, polygons[n]).Some? {
        var k :| 0 <= k < |polygons[n]| && polygons[n][k] == FirstOutOfRange(count, polygons[n]).value
          && forall j :: 0 <= j < k ==> polygons[n][j] < count;
        assert polygons[n][k] >= count && r.error == VertexOutOfRange(material, polygons[n][k]);
      } else {
        assert AllIndicesIn(count, polygons);
      }
    }
  }

  /** The group of key `j`. */
  function Group(res: MeshResource, j: nat): seq<seq<nat>>
    requires Keyed(res) && j < |res.materialOrder|
  {
    res.materials[res.materialOrder[j]]
  }

  /** Every polygon of the first `j` groups, group by group in key order and each group's
      polygons in their order, as a face in its group's slot. */
  function FlatGroups(res: MeshResource, j: nat): seq<Polygon>
    requires Keyed(res) && j <= |res.materialOrder|
  {
    if j == 0 then []
    else
      var group := Group(res, j - 1);
      FlatGroups(res, j - 1) + seq(|group|, q requires 0 <= q < |group| => Polygon(j - 1, group[q]))
  }

  /** Once built, the faces of the first `j` groups are exactly those groups' polygons: all of
      them, each once, in key order and then in group order. */
  lemma {:induction false} FacesExact(res: MeshResource, j: nat)
    requires Keyed(res) && j <= |res.materialOrder|
    ensures Faces(res, j).Success? ==> Faces(res, j).value == FlatGroups(res, j)
  {
    if j > 0 {
      FacesExact(res, j - 1);
      var name := res.materialOrder[j - 1];
      GroupFacesCharacterised(|res.locations|, name, j - 1, res.materials[name]);
    }
  }

  /** The faces of the first `j` groups are built exactly when those groups' indices are all
      valid; then every face sits in the slot of a group that holds its index list and every
      index names a location (`FacesExact` says which faces there are). */
  lemma {:induction false} FacesCharacterised(res: MeshResource, j: nat)
    requires Keyed(res) && j <= |res.materialOrder|
    ensures Faces(res, j).Success? <==> forall g :: 0 <= g < j ==> AllIndicesIn(|res.locations|, Group(res, g))
    ensures Faces(res, j).Success? ==> forall i :: 0 <= i < |Faces(res, j).value| ==>
      var face := Faces(res, j).value[i];
      && face.materialIndex < j
      && face.vertices in Group(res, face.materialIndex)
      && forall k :: 0 <= k < |face.vertices| ==> face.vertices[k] < |res.locations|
    ensures Faces(res, j).Failure? ==>
      exists g, q, k :: 0 <= g < j && 0 <= q < |Group(res, g)| && 0 <= k < |Group(res, g)[q]|
        && Group(res, g)[q][k] >= |res.locations|
        && Faces(res, j).error == VertexOutOfRange(res.materialOrder[g], Group(res, g)[q][k])
  {
    if j > 0 {
      FacesCharacterised(res, j - 1);
      var name := res.materialOrder[j - 1];
      GroupFacesCharacterised(|res.locations|, name, j - 1, res.materials[name]);
      assert Group(res, j - 1) == res.materials[name];
      assert (forall g :: 0 <= g < j ==> AllIndicesIn(|res.locations|, Group(res, g))) <==>
        (forall g :: 0 <= g < j - 1 ==> AllIndicesIn(|res.locations|, Group(res, g)))
        && AllIndicesIn(|res.locations|, Group(res, j - 1));
      if Faces(res, j).Failure? && Faces(res, j - 1).Success? {
        var g := j - 1;
        var q, k :| 0 <= q < |Group(res, g)| && 0 <= k < |Group(res, g)[q]| && Group(res, g)[q][k] >= |res.locations|
          && GroupFaces(|res.locations|, name, g, res.materials[name]).error == VertexOutOfRange(name, Group(res, g)[q][k]);
        assert Faces(res, j).error == VertexOutOfRange(res.materialOrder[g], Group(res, g)[q][k]);
      }
      if Faces(res, j).Success? {
        var faces: seq<Polygon> := Faces(res, j - 1).value;
        var more: seq<Polygon> := GroupFaces(|res.locations|, name, j - 1, res.materials[name]).value;
        var all: seq<Polygon> := faces + more;
        assert Faces(res, j).value == all;
        forall i | 0 <= i < |all|
          ensures all[i].materialIndex < j
          ensures all[i].vertices in Group(res, all[i].materialIndex)
        {
          if i >= |faces| {
            assert all[i] == more[i - |faces|];
          } else {
            assert all[i] == faces[i];
          }
        }
      }
    }
  }

  /** The rebuilt mesh exists exactly when every group's indices name locations; it then has
      the locations as its vertices, a slot per key in key order, and as faces every group's
      polygons in key order, each in its group's slot; otherwise the error names a bad index. */
  lemma BuiltCharacterised(meshName: string, res: MeshResource, existing: set<string>)
    requires Keyed(res)
    ensures Built(meshName, res, existing).Success? <==>
      forall g :: 0 <= g < |res.materialOrder| ==> AllIndicesIn(|res.locations|, Group(res, g))
    ensures Built(meshName, res, existing).Success? ==>
      var b := Built(meshName, res, existing).value;
      && b.name == meshName && b.vertices == res.locations
      && b.materialSlots == Slots(res.materialOrder, existing)
      && WellFormed(b)
      && b.polygons == FlatGroups(res, |res.materialOrder|)
      && forall i :: 0 <= i < |b.polygons| ==>
           b.polygons[i].materialIndex < |res.materialOrder| && b.polygons[i].vertices in Group(res, b.polygons[i].materialIndex)
    ensures Built(meshName, res, existing).Failure? ==>
      exists g, q, k :: 0 <= g < |res.materialOrder| && 0 <= q < |Group(res, g)| && 0 <= k < |Group(res, g)[q]|
        && Group(res, g)[q][k] >= |res.locations|
        && Built(meshName, res, existing).error == VertexOutOfRange(res.materialOrder[g], Group(res, g)[q][k])
  {
    FacesCharacterised(res, |res.materialOrder|);
    FacesExact(res, |res.materialOrder|);
  }
}
