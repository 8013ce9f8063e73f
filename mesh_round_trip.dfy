/** Export followed by import: the rebuilt mesh has the same faces, up to order. */
module MeshRoundTrip {
  import opened Outcomes
  import opened Sequences
  import opened Problems
  import opened Meshes
  import opened MeshExport
  import opened MeshExportProperties
  import opened MeshImport

  /** A face as the engine sees it: its material role and its corner positions in winding order. */
  datatype Facet = Facet(material: string, corners: seq<Vec3>)

  /** The facets of the first `|names|` polygons of `m`, given their materials. */
  function Facets(m: HostMesh, names: seq<string>): (r: seq<Facet>)
    requires |names| <= |m.polygons|
    ensures |r| == |names|
  {
    seq(|names|, i requires 0 <= i < |names| => Facet(names[i], PolygonPositions(m, m.polygons[i])))
  }

  /** The facets of material `n`, in order. */
  function Filter(fs: seq<Facet>, n: string): seq<Facet>
  {
    if |fs| == 0 then []
    else Filter(fs[..|fs| - 1], n) + (if fs[|fs| - 1].material == n then [fs[|fs| - 1]] else [])
  }

  /** The facets of each key in turn. */
  function ConcatFilters(fs: seq<Facet>, keys: seq<string>): seq<Facet>
  {
    if |keys| == 0 then [] else ConcatFilters(fs, keys[..|keys| - 1]) + Filter(fs, keys[|keys| - 1])
  }

  lemma FilterSnoc(fs: seq<Facet>, f: Facet, n: string)
    ensures Filter(fs + [f], n) == Filter(fs, n) + (if f.material == n then [f] else [])
  {
    assert (fs + [f])[..|fs|] == fs;
  }

  lemma {:induction false} ConcatFiltersEmpty(keys: seq<string>)
    ensures ConcatFilters([], keys) == []
  {
    if |keys| > 0 { ConcatFiltersEmpty(keys[..|keys| - 1]); }
  }

  lemma ConcatFiltersLast(fs: seq<Facet>, keys: seq<string>)
    requires |keys| > 0
    ensures multiset(ConcatFilters(fs, keys)) ==
      multiset(ConcatFilters(fs, keys[..|keys| - 1])) + multiset(Filter(fs, keys[|keys| - 1]))
  {
  }

  lemma SnocMembers(keys: seq<string>, x: string)
    requires |keys| > 0
    ensures x in keys <==> x in keys[..|keys| - 1] || x == keys[|keys| - 1]
  {
    assert keys == keys[..|keys| - 1] + [keys[|keys| - 1]];
  }

  lemma {:induction false} ConcatFiltersSnoc(fs: seq<Facet>, f: Facet, keys: seq<string>)
    requires NoDuplicates(keys)
    ensures multiset(ConcatFilters(fs + [f], keys)) ==
      multiset(ConcatFilters(fs, keys)) + (if f.material in keys then multiset{f} else multiset{})
  {
    if |keys| > 0 {
      var init := keys[..|keys| - 1];
      var last := keys[|keys| - 1];
      assert NoDuplicates(init);
      ConcatFiltersSnoc(fs, f, init);
      FilterSnoc(fs, f, last);
      ConcatFiltersLast(fs + [f], keys);
      ConcatFiltersLast(fs, keys);
      SnocMembers(keys, f.material);
      if f.material == last {
        assert f.material !in init;
      }
    }
  }

  /** Grouping the facets by a key list that lists every material once loses and adds none. */
  lemma {:induction false} ConcatFiltersPermutes(fs: seq<Facet>, keys: seq<string>)
    requires NoDuplicates(keys)
    requires forall i :: 0 <= i < |fs| ==> fs[i].material in keys
    ensures multiset(ConcatFilters(fs, keys)) == multiset(fs)
  {
    if |fs| == 0 {
      ConcatFiltersEmpty(keys);
    } else {
      var init := fs[..|fs| - 1];
      var f := fs[|fs| - 1];
      ConcatFiltersPermutes(init, keys);
      assert fs == init + [f];
      ConcatFiltersSnoc(init, f, keys);
    }
  }

  function FacetsWith(n: string, ps: seq<seq<Vec3>>): seq<Facet>
  {
    seq(|ps|, j requires 0 <= j < |ps| => Facet(n, ps[j]))
  }

  lemma {:induction false} FilterFacets(m: HostMesh, names: seq<string>, n: string)
    requires |names| <= |m.polygons|
    ensures Filter(Facets(m, names), n) == FacetsWith(n, PositionsWith(m, names, n))
  {
    if |names| > 0 {
      var k := |names| - 1;
      FilterFacets(m, names[..k], n);
      assert Facets(m, names)[..k] == Facets(m, names[..k]);
    }
  }

  /** The facets group `g` of a resource contributes once rebuilt. */
  function GroupFacets(res: MeshResource, g: nat): seq<Facet>
    requires Keyed(res) && g < |res.materialOrder| && AllIndicesIn(|res.locations|, Group(res, g))
  {
    var grp := Group(res, g);
    seq(|grp|, q requires 0 <= q < |grp| => Facet(res.materialOrder[g], Resolve(res.locations, grp[q])))
  }

  function BuiltFacets(res: MeshResource, j: nat): seq<Facet>
    requires Keyed(res) && j <= |res.materialOrder|
    requires forall g :: 0 <= g < j ==> AllIndicesIn(|res.locations|, Group(res, g))
  {
    if j == 0 then [] else BuiltFacets(res, j - 1) + GroupFacets(res, j - 1)
  }

  /** A rebuilt face's facet: the key of its slot and the locations it names. */
  predicate FaceInRange(res: MeshResource, face: Polygon)
  {
    face.materialIndex < |res.materialOrder| && InRange(res.locations, face.vertices)
  }

  function FaceFacets(res: MeshResource, faces: seq<Polygon>): seq<Facet>
    requires forall i :: 0 <= i < |faces| ==> FaceInRange(res, faces[i])
  {
    seq(|faces|, i requires 0 <= i < |faces| && FaceInRange(res, faces[i]) =>
      Facet(res.materialOrder[faces[i].materialIndex], Resolve(res.locations, faces[i].vertices)))
  }

  lemma {:induction false} FacesFacets(res: MeshResource, j: nat)
    requires Keyed(res) && j <= |res.materialOrder| && Faces(res, j).Success?
    ensures forall g :: 0 <= g < j ==> AllIndicesIn(|res.locations|, Group(res, g))
    ensures forall i :: 0 <= i < |Faces(res, j).value| ==> FaceInRange(res, Faces(res, j).value[i])
    ensures FaceFacets(res, Faces(res, j).value) == BuiltFacets(res, j)
  {
    FacesCharacterised(res, j);
    if j > 0 {
      FacesFacets(res, j - 1);
      var name := res.materialOrder[j - 1];
      GroupFacesCharacterised(|res.locations|, name, j - 1, res.materials[name]);
      var faces: seq<Polygon> := Faces(res, j - 1).value;
      var more: seq<Polygon> := GroupFaces(|res.locations|, name, j - 1, res.materials[name]).value;
      assert Faces(res, j).value == faces + more;
      assert FaceFacets(res, faces + more) == FaceFacets(res, faces) + GroupFacets(res, j - 1);
    }
  }

  /** Each exported group names only locations of the resource. */
  lemma GroupInRange(m: HostMesh, res: MeshResource, g: nat)
    requires Flattened(m).Success?
    requires res == Flattened(m).value.(materialOrder := res.materialOrder) && Keyed(res)
    requires g < |res.materialOrder|
    ensures AllIndicesIn(|res.locations|, Group(res, g))
  {
    FlattenedGroups(m);
    var grp := Group(res, g);
    forall q, k | 0 <= q < |grp| && 0 <= k < |grp[q]| ensures grp[q][k] < |res.locations| {
      assert InRange(res.locations, grp[q]);
    }
  }

  /** Group `g`, rebuilt, is the facets of the polygons of its material, in order. */
  lemma GroupFacetsFiltered(m: HostMesh, res: MeshResource, g: nat)
    requires Flattened(m).Success?
    requires res == Flattened(m).value.(materialOrder := res.materialOrder) && Keyed(res)
    requires g < |res.materialOrder| && AllIndicesIn(|res.locations|, Group(res, g))
    ensures GroupFacets(res, g) == Filter(Facets(m, MaterialNames(m, |m.polygons|).value), res.materialOrder[g])
  {
    var names := MaterialNames(m, |m.polygons|).value;
    var n := res.materialOrder[g];
    FlattenedGroups(m);
    FilterFacets(m, names, n);
    assert GroupFacets(res, g) == FacetsWith(n, PositionsWith(m, names, n));
  }

  lemma ConcatFiltersPrefix(fs: seq<Facet>, keys: seq<string>, j: nat)
    requires 0 < j <= |keys|
    ensures ConcatFilters(fs, keys[..j]) == ConcatFilters(fs, keys[..j - 1]) + Filter(fs, keys[j - 1])
  {
    assert keys[..j][..j - 1] == keys[..j - 1];
  }

  lemma {:induction false} BuiltFacetsGrouped(m: HostMesh, res: MeshResource, j: nat)
    requires Flattened(m).Success?
    requires res == Flattened(m).value.(materialOrder := res.materialOrder) && Keyed(res)
    requires j <= |res.materialOrder|
    ensures forall g :: 0 <= g < j ==> AllIndicesIn(|res.locations|, Group(res, g))
    ensures BuiltFacets(res, j) == ConcatFilters(Facets(m, MaterialNames(m, |m.polygons|).value), res.materialOrder[..j])
  {
    if j > 0 {
      BuiltFacetsGrouped(m, res, j - 1);
      GroupInRange(m, res, j - 1);
      GroupFacetsFiltered(m, res, j - 1);
      ConcatFiltersPrefix(Facets(m, MaterialNames(m, |m.polygons|).value), res.materialOrder, j);
    }
  }

  /** The facets of a rebuilt mesh are those of its faces read against the resource. */
  lemma RebuiltFacets(b: HostMesh, res: MeshResource, names: seq<string>)
    requires b.vertices == res.locations && |names| == |b.polygons|
    requires forall i :: 0 <= i < |b.polygons| ==>
      FaceInRange(res, b.polygons[i]) && names[i] == res.materialOrder[b.polygons[i].materialIndex]
    ensures Facets(b, names) == FaceFacets(res, b.polygons)
  {
    forall i | 0 <= i < |b.polygons| ensures Facets(b, names)[i] == FaceFacets(res, b.polygons)[i] {
      var face := b.polygons[i];
      assert PolygonPositions(b, face) == Resolve(res.locations, face.vertices);
    }
  }

  /** Every key of the exported groups is an accepted material, so every rebuilt face takes
      its group's key back as its material. */
  lemma RebuiltNames(m: HostMesh, res: MeshResource, existing: set<string>, b: HostMesh)
    requires Flattened(m).Success?
    requires res == Flattened(m).value.(materialOrder := res.materialOrder) && Keyed(res)
    requires SupportedMaterials <= existing && b.materialSlots == Slots(res.materialOrder, existing)
    requires forall i :: 0 <= i < |b.polygons| ==> b.polygons[i].materialIndex < |res.materialOrder|
    ensures MaterialNames(b, |b.polygons|).Success?
    ensures forall i :: 0 <= i < |b.polygons| ==>
      MaterialNames(b, |b.polygons|).value[i] == res.materialOrder[b.polygons[i].materialIndex]
  {
    FlattenedGroups(m);
    forall i | 0 <= i < |b.polygons|
      ensures MaterialOf(b, b.polygons[i]) == Success(res.materialOrder[b.polygons[i].materialIndex])
    {
      var n := res.materialOrder[b.polygons[i].materialIndex];
      assert n in res.materials;
      var t :| 0 <= t < |m.polygons| && MaterialOf(m, m.polygons[t]) == Success(n);
      MaterialRule(m, m.polygons[t]);
    }
    MaterialNamesPointwise(b, |b.polygons|);
  }

  /** Every original facet's material is one of the group keys. */
  lemma FacetsKeyed(m: HostMesh, res: MeshResource)
    requires Flattened(m).Success?
    requires res == Flattened(m).value.(materialOrder := res.materialOrder) && Keyed(res)
    ensures forall i :: 0 <= i < |m.polygons| ==>
      Facets(m, MaterialNames(m, |m.polygons|).value)[i].material in res.materialOrder
  {
    FlattenedGroups(m);
    MaterialNamesPointwise(m, |m.polygons|);
    var names := MaterialNames(m, |m.polygons|).value;
    forall i | 0 <= i < |m.polygons| ensures Facets(m, names)[i].material in res.materialOrder {
      assert MaterialOf(m, m.polygons[i]) == Success(names[i]);
    }
  }

  /** The mesh rebuilt on import from the exported resource, whatever order the groups are
      read back in, has the distinct locations as its vertices, a slot per group, and exactly
      the original polygons' facets (material and corner positions), each as often as before. */
  lemma MeshRoundTrip(m: HostMesh, order: seq<string>, meshName: string, existing: set<string>)
    requires Flattened(m).Success?
    requires Keyed(Flattened(m).value.(materialOrder := order))
    requires SupportedMaterials <= existing
    ensures Built(meshName, Flattened(m).value.(materialOrder := order), existing).Success?
    ensures var b := Built(meshName, Flattened(m).value.(materialOrder := order), existing).value;
      && WellFormed(b)
      && b.vertices == Flattened(m).value.locations && NoDuplicates(b.vertices)
      && |b.materialSlots| == |order|
      && MaterialNames(b, |b.polygons|).Success?
      && multiset(Facets(b, MaterialNames(b, |b.polygons|).value)) == multiset(Facets(m, MaterialNames(m, |m.polygons|).value))
  {
    var res := Flattened(m).value.(materialOrder := order);
    var names := MaterialNames(m, |m.polygons|).value;
    BuiltFacetsGrouped(m, res, |order|);
    BuiltCharacterised(meshName, res, existing);
    FlattenedLocations(m);
    var b: HostMesh := Built(meshName, res, existing).value;
    FacesFacets(res, |order|);
    RebuiltNames(m, res, existing, b);
    RebuiltFacets(b, res, MaterialNames(b, |b.polygons|).value);
    assert order[..|order|] == order;
    FacetsKeyed(m, res);
    ConcatFiltersPermutes(Facets(m, names), order);
  }
}
