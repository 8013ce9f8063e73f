/** Mesh geometry on both sides: the host's mesh data and the document's mesh resource. */
module Meshes {
  import opened Outcomes
  import opened Sequences

  /** A vertex position; positions are compared by exact equality. */
  datatype Vec3 = Vec3(x: real, y: real, z: real)

  /** A host polygon: its material slot and its vertex indices in winding order. */
  datatype Polygon = Polygon(materialIndex: nat, vertices: seq<nat>)

  /** Host mesh data: vertices, material slots (a slot may be empty) and polygons. */
  datatype MeshData = MeshData(name: string, vertices: seq<Vec3>, materialSlots: seq<Option<string>>, polygons: seq<Polygon>)

  predicate InMesh(m: MeshData, p: Polygon)
  {
    forall k :: 0 <= k < |p.vertices| ==> p.vertices[k] < |m.vertices|
  }

  /** The host keeps every polygon's vertex indices within its vertex list. */
  predicate WellFormed(m: MeshData)
  {
    forall i :: 0 <= i < |m.polygons| ==> InMesh(m, m.polygons[i])
  }

  type HostMesh = m: MeshData | WellFormed(m) witness MeshData("", [], [], [])

  /** A mesh resource of the document: distinct `locations`, and `materials` mapping a
      material name to its polygons (index lists into `locations`), with the key order. */
  datatype MeshResource = MeshResource(locations: seq<Vec3>, materialOrder: seq<string>, materials: map<string, seq<seq<nat>>>)

  /** The key order lists each key of `materials` exactly once. */
  ghost predicate Keyed(r: MeshResource)
  {
    NoDuplicates(r.materialOrder) && forall n :: n in r.materials <==> n in r.materialOrder
  }

  /** The three material roles the engine knows. */
  const SupportedMaterials: set<string> := {"occluder", "walk", "none"}

  /** The positions of a polygon's vertices, in winding order. */
  function PolygonPositions(m: MeshData, p: Polygon): (r: seq<Vec3>)
    requires InMesh(m, p)
    ensures |r| == |p.vertices|
  {
    seq(|p.vertices|, k requires 0 <= k < |p.vertices| => m.vertices[p.vertices[k]])
  }
}
