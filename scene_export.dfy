/** The export walk over the host's object tree. */
module SceneExport {
  import opened Outcomes
  import opened Problems
  import opened Animation
  import opened AnimationExport
  import opened Meshes
  import opened MeshExport
  import opened Lights

  /** What an object is, with the data it refers to. */
  datatype ObjectKind =
    | Empty
    | LampObject(lamp: Lamp)
    | MeshObject(mesh: HostMesh)
    | OtherKind(typeName: string)

  /** An object's current scale, Euler rotation and location. */
  datatype Basis = Basis(scale: Triple, rotation: Triple, location: Triple)

  /** A host object. `rebasedBasis` is what the host's matrix arithmetic yields once the parent
      inverse is reset to the identity; the model does not compute it. */
  datatype HostObject = HostObject(
    name: string,
    kind: ObjectKind,
    parentInverse: seq<seq<real>>,
    basis: Basis,
    rebasedBasis: Basis,
    curves: seq<FCurve>,
    children: seq<HostObject>)

  datatype Transform = Transform(scale: Property, rotation: Property, translation: Property)

  /** The `type`/`data` pair of a scene node. */
  datatype Link = Unlinked | LightLink(dataName: string) | MeshLink(dataName: string)

  /** A scene node of the document; its children are keyed by object name. */
  datatype SceneNode = SceneNode(transform: Transform, link: Link, children: map<string, SceneNode>)

  /** The resources written so far, keyed by data name. */
  datatype Context = Context(meshes: map<string, MeshResource>, lights: map<string, LightRecord>)

  /** The outcome of a walk: its status, the collection it filled and the resources. */
  datatype Walked = Walked(status: Outcome<ExportError>, collection: map<string, SceneNode>, ctx: Context)

  /** How far a parent-inverse cell may stray from the identity. */
  const Tolerance: real := 0.001

  function Abs(x: real): real
  {
    if x < 0.0 then -x else x
  }

  function IdentityEntry(row: nat, column: nat): real
  {
    if row == column then 1.0 else 0.0
  }

  /** Every cell is within the tolerance of the identity matrix's entry. */
  predicate IdentityWithin(m: seq<seq<real>>)
  {
    forall r, c :: 0 <= r < |m| && 0 <= c < |m[r]| ==> Abs(m[r][c] - IdentityEntry(r, c)) <= Tolerance
  }

  /** The identity test at the top of `recurse`. */
  method IsIdentity(m: seq<seq<real>>) returns (b: bool)
    ensures b <==> forall r, c :: 0 <= r < |m| && 0 <= c < |m[r]| ==> Abs(m[r][c] - IdentityEntry(r, c)) <= Tolerance
  {
    b := true;
    var row := 0;
    while row < |m|
      invariant 0 <= row <= |m|
      invariant b <==> forall r, c :: 0 <= r < row && 0 <= c < |m[r]| ==> Abs(m[r][c] - IdentityEntry(r, c)) <= Tolerance
    {
      var column := 0;
      ghost var before := b;
      while column < |m[row]|
        invariant 0 <= column <= |m[row]|
        invariant b <==> before && forall c :: 0 <= c < column ==> Abs(m[row][c] - IdentityEntry(row, c)) <= Tolerance
      {
        var expected := 0.0;
        if row == column {
          expected := 1.0;
        }
        if Abs(m[row][column] - expected) > 0.001 {
          b := false;
        }
        column := column + 1;
      }
      row := row + 1;
    }
  }

  /** The transform an object is written with, or why it cannot be. An object whose parent
      inverse is not the identity is first rebased onto its parent; a root has none. */
  function TransformOf(obj: HostObject, hasParent: bool): Result<Transform, Problem>
  {
    if !IdentityWithin(obj.parentInverse) && !hasParent then Failure(NoParent)
    else
      var basis := if IdentityWithin(obj.parentInverse) then obj.basis else obj.rebasedBasis;
      var scale := Encoded(obj.curves, "scale", 3, false, Components(basis.scale));
      var rotation := Encoded(obj.curves, "rotation_euler", 3, false, Components(basis.rotation));
      var translation := Encoded(obj.curves, "location", 3, false, Components(basis.location));
      if scale.Failure? then Failure(scale.error)
      else if rotation.Failure? then Failure(rotation.error)
      else if translation.Failure? then Failure(translation.error)
      else Success(Transform(scale.value, rotation.value, translation.value))
  }

  function LinkOf(kind: ObjectKind): Link
  {
    match kind
    case LampObject(lamp) => LightLink(lamp.name)
    case MeshObject(mesh) => MeshLink(mesh.name)
    case _ => Unlinked
  }

  /** The resources after an object's data is written, the first time its data name is seen. */
  function WithData(kind: ObjectKind, ctx: Context): Result<Context, Problem>
  {
    match kind
    case Empty => Success(ctx)
    case LampObject(lamp) =>
      if lamp.name in ctx.lights then Success(ctx)
      else
        (match LightOf(lamp)
         case Failure(e) => Failure(e)
         case Success(light) => Success(ctx.(lights := ctx.lights[lamp.name := light])))
    case MeshObject(mesh) =>
      if mesh.name in ctx.meshes then Success(ctx)
      else
        (match Flattened(mesh)
         case Failure(e) => Failure(e)
         case Success(res) => Success(ctx.(meshes := ctx.meshes[mesh.name := res])))
    case OtherKind(t) => Failure(UnsupportedObjectType(t))
  }

  /** `recurse(object, collection)`: the object's node goes into `collection` once its
      transform is written, then its data, then its children into the node's own collection. */
  function Visit(obj: HostObject, hasParent: bool, collection: map<string, SceneNode>, ctx: Context): Walked
    decreases obj, 1, 0
  {
    match TransformOf(obj, hasParent)
    case Failure(e) => Walked(Fail(ObjectError(obj.name, e)), collection, ctx)
    case Success(t) =>
      var node := SceneNode(t, LinkOf(obj.kind), map[]);
      match WithData(obj.kind, ctx)
      case Failure(e) => Walked(Fail(ObjectError(obj.name, e)), collection[obj.name := node], ctx)
      case Success(ctx') =>
        var w := VisitChildren(obj, |obj.children|, ctx');
        Walked(w.status, collection[obj.name := node.(children := w.collection)], w.ctx)
  }

  /** The first `n` children of `parent`, in order, into a fresh collection; the first failure stops. */
  function VisitChildren(parent: HostObject, n: nat, ctx: Context): Walked
    requires n <= |parent.children|
    decreases parent, 0, n
  {
    if n == 0 then Walked(Pass, map[], ctx)
    else
      var w := VisitChildren(parent, n - 1, ctx);
      if w.status.Fail? then w else Visit(parent.children[n - 1], true, w.collection, w.ctx)
  }

  lemma {:induction false} ChildrenFailureSticks(parent: HostObject, n: nat, m: nat, ctx: Context)
    requires n <= m <= |parent.children| && VisitChildren(parent, n, ctx).status.Fail?
    ensures VisitChildren(parent, m, ctx) == VisitChildren(parent, n, ctx)
    decreases m
  {
    if n < m { ChildrenFailureSticks(parent, n, m - 1, ctx); }
  }

  /** A child whose walk fails, reached after its earlier siblings passed, makes its parent's
      walk fail with the child's error; applied along a path, a failing descendant fails
      every ancestor. */
  lemma ChildFailureFails(obj: HostObject, hasParent: bool, collection: map<string, SceneNode>, ctx: Context, i: nat)
    requires i < |obj.children|
    requires TransformOf(obj, hasParent).Success? && WithData(obj.kind, ctx).Success?
    requires var w := VisitChildren(obj, i, WithData(obj.kind, ctx).value);
      w.status.Pass? && Visit(obj.children[i], true, w.collection, w.ctx).status.Fail?
    ensures var w := VisitChildren(obj, i, WithData(obj.kind, ctx).value);
      Visit(obj, hasParent, collection, ctx).status == Visit(obj.children[i], true, w.collection, w.ctx).status
  {
    ChildrenFailureSticks(obj, i + 1, |obj.children|, WithData(obj.kind, ctx).value);
  }

  /** The transform part of `recurse`: the identity test, the rebase and the three channels. */
  method WriteTransform(obj: HostObject, hasParent: bool) returns (r: Result<Transform, Problem>)
    ensures r == TransformOf(obj, hasParent)
  {
    var identity := IsIdentity(obj.parentInverse);
    var basis := obj.basis;
    if !identity {
      if !hasParent {
        return Failure(NoParent);
      }
      basis := obj.rebasedBasis;
    }
    var scale := WriteAnimation(obj.curves, "scale", 3, false, Components(basis.scale));
    var rotation := WriteAnimation(obj.curves, "rotation_euler", 3, false, Components(basis.rotation));
    var translation := WriteAnimation(obj.curves, "location", 3, false, Components(basis.location));
    if scale.Failure? {
      return Failure(scale.error);
    }
    if rotation.Failure? {
      return Failure(rotation.error);
    }
    if translation.Failure? {
      return Failure(translation.error);
    }
    r := Success(Transform(scale.value, rotation.value, translation.value));
  }

  /** The data part of `recurse`: a light or mesh is written under its data name unless it
      already was; any other kind but an empty is refused. */
  method WriteData(kind: ObjectKind, ctx: Context) returns (r: Result<Context, Problem>)
    ensures r == WithData(kind, ctx)
  {
    match kind {
      case Empty =>
        r := Success(ctx);
      case LampObject(lamp) =>
        if lamp.name in ctx.lights {
          return Success(ctx);
        }
        var light := DescribeLight(lamp);
        if light.Failure? {
          return Failure(light.error);
        }
        r := Success(ctx.(lights := ctx.lights[lamp.name := light.value]));
      case MeshObject(mesh) =>
        if mesh.name in ctx.meshes {
          return Success(ctx);
        }
        var res := FlattenMesh(mesh);
        if res.Failure? {
          return Failure(res.error);
        }
        r := Success(ctx.(meshes := ctx.meshes[mesh.name := res.value]));
      case OtherKind(t) =>
        r := Failure(UnsupportedObjectType(t));
    }
  }

  /** One more child continues a walk that has not failed. */
  lemma ChildStep(parent: HostObject, i: nat, ctx: Context, children: map<string, SceneNode>, resources: Context)
    requires i < |parent.children| && VisitChildren(parent, i, ctx) == Walked(Pass, children, resources)
    ensures VisitChildren(parent, i + 1, ctx) == Visit(parent.children[i], true, children, resources)
  {
  }

  /** The export walk's `recurse`. */
  method Recurse(obj: HostObject, hasParent: bool, collection: map<string, SceneNode>, ctx: Context) returns (w: Walked)
    ensures w == Visit(obj, hasParent, collection, ctx)
    decreases obj, 1
  {
    var transform := WriteTransform(obj, hasParent);
    if transform.Failure? {
      return Walked(Fail(ObjectError(obj.name, transform.error)), collection, ctx);
    }
    var node := SceneNode(transform.value, LinkOf(obj.kind), map[]);
    var data := WriteData(obj.kind, ctx);
    if data.Failure? {
      return Walked(Fail(ObjectError(obj.name, data.error)), collection[obj.name := node], ctx);
    }
    var children := RecurseChildren(obj, data.value);
    w := Walked(children.status, collection[obj.name := node.(children := children.collection)], children.ctx);
  }

  /** The children loop at the end of `recurse`: each child in order into the node's own
      collection, stopping at the first failure. */
  method RecurseChildren(parent: HostObject, ctx: Context) returns (w: Walked)
    ensures w == VisitChildren(parent, |parent.children|, ctx)
    decreases parent, 0
  {
    var children: map<string, SceneNode> := map[];
    var resources := ctx;
    var i := 0;
    while i < |parent.children|
      invariant 0 <= i <= |parent.children|
      invariant VisitChildren(parent, i, ctx) == Walked(Pass, children, resources)
    {
      var child := Recurse(parent.children[i], true, children, resources);
      ChildStep(parent, i, ctx, children, resources);
      if child.status.Fail? {
        ChildrenFailureSticks(parent, i + 1, |parent.children|, ctx);
        return child;
      }
      children, resources := child.collection, child.ctx;
      i := i + 1;
    }
    w := Walked(Pass, children, resources);
  }

  /** An entry of the scene's object list; `parented` says whether the object has a parent. */
  datatype Listed = Listed(entry: HostObject, parented: bool)

  /** The exported scene: its unit settings, its frame rate and its object list. */
  datatype Scene = Scene(system: string, scaleLength: real, fps: int, fpsBase: real, objects: seq<Listed>)

  /** The document the exporter serialises. */
  datatype Document = Document(
    fpsNumerator: int,
    fpsDenominator: real,
    meshes: map<string, MeshResource>,
    lights: map<string, LightRecord>,
    sceneNodes: map<string, SceneNode>)

  predicate InMeters(scene: Scene)
  {
    scene.system == "METRIC" && scene.scaleLength == 1.0
  }

  /** The first `n` entries of the object list; objects with a parent are skipped, as they are
      reached from their parent. The resources are shared by all roots. */
  function VisitRoots(objects: seq<Listed>, n: nat): Walked
    requires n <= |objects|
  {
    if n == 0 then Walked(Pass, map[], Context(map[], map[]))
    else
      var w := VisitRoots(objects, n - 1);
      if w.status.Fail? || objects[n - 1].parented then w
      else Visit(objects[n - 1].entry, false, w.collection, w.ctx)
  }

  /** The operator's `execute`: the document, or the error that stopped it before any file was written. */
  function Exported(scene: Scene): Result<Document, ExportError>
  {
    if !InMeters(scene) then Failure(NotInMeters)
    else
      var w := VisitRoots(scene.objects, |scene.objects|);
      if w.status.Fail? then Failure(w.status.error)
      else Success(Document(scene.fps, scene.fpsBase, w.ctx.meshes, w.ctx.lights, w.collection))
  }

  lemma {:induction false} RootsFailureSticks(objects: seq<Listed>, n: nat, m: nat)
    requires n <= m <= |objects| && VisitRoots(objects, n).status.Fail?
    ensures VisitRoots(objects, m) == VisitRoots(objects, n)
    decreases m
  {
    if n < m { RootsFailureSticks(objects, n, m - 1); }
  }

  method Export(scene: Scene) returns (r: Result<Document, ExportError>)
    ensures r == Exported(scene)
  {
    if scene.system != "METRIC" || scene.scaleLength != 1.0 {
      return Failure(NotInMeters);
    }
    var sceneNodes: map<string, SceneNode> := map[];
    var ctx := Context(map[], map[]);
    var i := 0;
    while i < |scene.objects|
      invariant 0 <= i <= |scene.objects|
      invariant VisitRoots(scene.objects, i) == Walked(Pass, sceneNodes, ctx)
    {
      if !scene.objects[i].parented {
        var w := Recurse(scene.objects[i].entry, false, sceneNodes, ctx);
        if w.status.Fail? {
          RootsFailureSticks(scene.objects, i + 1, |scene.objects|);
          return Failure(w.status.error);
        }
        sceneNodes, ctx := w.collection, w.ctx;
      }
      i := i + 1;
    }
    r := Success(Document(scene.fps, scene.fpsBase, ctx.meshes, ctx.lights, sceneNodes));
  }
}
