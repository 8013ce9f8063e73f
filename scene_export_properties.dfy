/** What the export walk guarantees about the document it builds. */
module SceneExportProperties {
  import opened Outcomes
  import opened Problems
  import opened Meshes
  import opened MeshExport
  import opened Lights
  import opened SceneExport

  /** The objects of a subtree, parent first. */
  function Subtree(obj: HostObject): (r: seq<HostObject>)
    ensures |r| > 0 && r[0] == obj
    decreases obj, 1
  {
    [obj] + Descendants(obj, |obj.children|)
  }

  /** The subtrees of the first `n` children of `parent`, in order. */
  function Descendants(parent: HostObject, n: nat): seq<HostObject>
    requires n <= |parent.children|
    decreases parent, 0, n
  {
    if n == 0 then [] else Descendants(parent, n - 1) + Subtree(parent.children[n - 1])
  }

  /** Every resource of `ctx` is still in `ctx'`, unchanged. */
  predicate Extends(ctx: Context, ctx': Context)
  {
    && (forall k :: k in ctx.meshes ==> k in ctx'.meshes && ctx'.meshes[k] == ctx.meshes[k])
    && (forall k :: k in ctx.lights ==> k in ctx'.lights && ctx'.lights[k] == ctx.lights[k])
  }

  /** The walk never replaces a written resource: the memo tables only grow. */
  lemma {:induction false} VisitExtends(obj: HostObject, hasParent: bool, collection: map<string, SceneNode>, ctx: Context)
    ensures Extends(ctx, Visit(obj, hasParent, collection, ctx).ctx)
    decreases obj, 1, 0
  {
    if TransformOf(obj, hasParent).Success? && WithData(obj.kind, ctx).Success? {
      var ctx' := WithData(obj.kind, ctx).value;
      ChildrenExtend(obj, |obj.children|, ctx');
    }
  }

  lemma {:induction false} ChildrenExtend(parent: HostObject, n: nat, ctx: Context)
    requires n <= |parent.children|
    ensures Extends(ctx, VisitChildren(parent, n, ctx).ctx)
    decreases parent, 0, n
  {
    if n > 0 {
      ChildrenExtend(parent, n - 1, ctx);
      var w := VisitChildren(parent, n - 1, ctx);
      if w.status.Pass? {
        VisitExtends(parent.children[n - 1], true, w.collection, w.ctx);
      }
    }
  }

  /** `o` is a mesh object whose data, flattened, is `res`. */
  predicate MeshFrom(o: HostObject, name: string, res: MeshResource)
  {
    o.kind.MeshObject? && o.kind.mesh.name == name && Flattened(o.kind.mesh) == Success(res)
  }

  /** `o` is a lamp object whose data, described, is `light`. */
  predicate LightFrom(o: HostObject, name: string, light: LightRecord)
  {
    o.kind.LampObject? && o.kind.lamp.name == name && LightOf(o.kind.lamp) == Success(light)
  }

  /** Every resource of `ctx` was written from an object of `objs` with that data name. */
  ghost predicate Sound(ctx: Context, objs: seq<HostObject>)
  {
    && (forall k :: k in ctx.meshes ==> exists o :: o in objs && MeshFrom(o, k, ctx.meshes[k]))
    && (forall k :: k in ctx.lights ==> exists o :: o in objs && LightFrom(o, k, ctx.lights[k]))
  }

  lemma SoundGrow(ctx: Context, objs: seq<HostObject>, more: seq<HostObject>)
    requires Sound(ctx, objs)
    ensures Sound(ctx, objs + more)
  {
    forall k | k in ctx.meshes
      ensures exists o :: o in objs + more && MeshFrom(o, k, ctx.meshes[k])
    {
      var o :| o in objs && MeshFrom(o, k, ctx.meshes[k]);
      assert o in objs + more;
    }
    forall k | k in ctx.lights
      ensures exists o :: o in objs + more && LightFrom(o, k, ctx.lights[k])
    {
      var o :| o in objs && LightFrom(o, k, ctx.lights[k]);
      assert o in objs + more;
    }
  }

  /** Writing an object's data keeps the resources sound once the object is counted. */
  lemma WithDataSound(obj: HostObject, ctx: Context, prior: seq<HostObject>)
    requires Sound(ctx, prior) && WithData(obj.kind, ctx).Success?
    ensures Sound(WithData(obj.kind, ctx).value, prior + [obj])
  {
    SoundGrow(ctx, prior, [obj]);
    assert obj in prior + [obj];
  }

  /** Each mesh and light the walk writes is the flattening or description of the data of
      an object it visited, under that data's name. */
  lemma {:induction false} VisitSound(obj: HostObject, hasParent: bool, collection: map<string, SceneNode>, ctx: Context, prior: seq<HostObject>)
    requires Sound(ctx, prior)
    ensures Sound(Visit(obj, hasParent, collection, ctx).ctx, prior + Subtree(obj))
    decreases obj, 1, 0
  {
    if TransformOf(obj, hasParent).Success? && WithData(obj.kind, ctx).Success? {
      var ctx' := WithData(obj.kind, ctx).value;
      WithDataSound(obj, ctx, prior);
      ChildrenSound(obj, |obj.children|, ctx', prior + [obj]);
      assert prior + [obj] + Descendants(obj, |obj.children|) == prior + Subtree(obj);
    } else {
      SoundGrow(ctx, prior, Subtree(obj));
    }
  }

  lemma {:induction false} ChildrenSound(parent: HostObject, n: nat, ctx: Context, prior: seq<HostObject>)
    requires n <= |parent.children| && Sound(ctx, prior)
    ensures Sound(VisitChildren(parent, n, ctx).ctx, prior + Descendants(parent, n))
    decreases parent, 0, n
  {
    if n == 0 {
      assert prior + Descendants(parent, n) == prior;
    } else {
      ChildrenSound(parent, n - 1, ctx, prior);
      var w := VisitChildren(parent, n - 1, ctx);
      var child := parent.children[n - 1];
      assert prior + Descendants(parent, n) == prior + Descendants(parent, n - 1) + Subtree(child);
      if w.status.Pass? {
        VisitSound(child, true, w.collection, w.ctx, prior + Descendants(parent, n - 1));
      } else {
        SoundGrow(w.ctx, prior + Descendants(parent, n - 1), Subtree(child));
      }
    }
  }

  /** A failed walk names an object of the subtree it walked. */
  lemma {:induction false} VisitBlame(obj: HostObject, hasParent: bool, collection: map<string, SceneNode>, ctx: Context)
    ensures var w := Visit(obj, hasParent, collection, ctx);
      w.status.Fail? ==> w.status.error.ObjectError? && exists o :: o in Subtree(obj) && o.name == w.status.error.objectName
    decreases obj, 1, 0
  {
    var w := Visit(obj, hasParent, collection, ctx);
    if w.status.Fail? {
      if TransformOf(obj, hasParent).Success? && WithData(obj.kind, ctx).Success? {
        var ctx' := WithData(obj.kind, ctx).value;
        ChildrenBlame(obj, |obj.children|, ctx');
        var o :| o in Descendants(obj, |obj.children|) && o.name == w.status.error.objectName;
        assert o in Subtree(obj);
      } else {
        assert obj in Subtree(obj);
      }
    }
  }

  lemma {:induction false} ChildrenBlame(parent: HostObject, n: nat, ctx: Context)
    requires n <= |parent.children|
    ensures var w := VisitChildren(parent, n, ctx);
      w.status.Fail? ==> w.status.error.ObjectError? && exists o :: o in Descendants(parent, n) && o.name == w.status.error.objectName
    decreases parent, 0, n
  {
    if n > 0 {
      var w := VisitChildren(parent, n - 1, ctx);
      ChildrenBlame(parent, n - 1, ctx);
      if w.status.Fail? {
        var o :| o in Descendants(parent, n - 1) && o.name == w.status.error.objectName;
        assert o in Descendants(parent, n);
      } else {
        var child := parent.children[n - 1];
        VisitBlame(child, true, w.collection, w.ctx);
        var v := Visit(child, true, w.collection, w.ctx);
        if v.status.Fail? {
          var o :| o in Subtree(child) && o.name == v.status.error.objectName;
          assert o in Descendants(parent, n);
        }
      }
    }
  }

  /** The names of `obj`'s children. */
  function ChildNames(obj: HostObject, n: nat): (r: set<string>)
    requires n <= |obj.children|
    ensures forall i :: 0 <= i < n ==> obj.children[i].name in r
  {
    if n == 0 then {} else ChildNames(obj, n - 1) + {obj.children[n - 1].name}
  }

  /** No two children of one object share a name, anywhere in the tree; the host keeps
      object names unique, which implies this. */
  ghost predicate DistinctSiblings(obj: HostObject)
    decreases obj
  {
    && (forall i, j :: 0 <= i < j < |obj.children| ==> obj.children[i].name != obj.children[j].name)
    && (forall i :: 0 <= i < |obj.children| ==> DistinctSiblings(obj.children[i]))
  }

  /** `node` is what the walk writes for `obj`: its transform, its data link, and one child
      node per child object, keyed by the child's name and mirroring it in turn. */
  ghost predicate Mirrors(node: SceneNode, obj: HostObject, hasParent: bool)
    decreases obj, 1
  {
    && TransformOf(obj, hasParent) == Success(node.transform)
    && node.link == LinkOf(obj.kind)
    && node.children.Keys == ChildNames(obj, |obj.children|)
    && MirrorsChildren(node.children, obj, |obj.children|)
  }

  /** Each of the first `n` children of `parent` has a mirroring node in `c` under its name. */
  ghost predicate MirrorsChildren(c: map<string, SceneNode>, parent: HostObject, n: nat)
    requires n <= |parent.children|
    decreases parent, 0, n
  {
    n == 0 ||
      (MirrorsChildren(c, parent, n - 1)
       && parent.children[n - 1].name in c
       && Mirrors(c[parent.children[n - 1].name], parent.children[n - 1], true))
  }

  /** The node goes into the collection as soon as its transform is written, before its data
      and its children are examined; on success it mirrors the object and nothing else changes. */
  lemma {:induction false} VisitMirrors(obj: HostObject, hasParent: bool, collection: map<string, SceneNode>, ctx: Context)
    requires DistinctSiblings(obj)
    ensures var w := Visit(obj, hasParent, collection, ctx);
      TransformOf(obj, hasParent).Success? ==> obj.name in w.collection && w.collection.Keys == collection.Keys + {obj.name}
    ensures var w := Visit(obj, hasParent, collection, ctx);
      TransformOf(obj, hasParent).Failure? ==> w.collection == collection && w.ctx == ctx
    ensures var w := Visit(obj, hasParent, collection, ctx);
      forall k :: k in collection && k != obj.name ==> w.collection[k] == collection[k]
    ensures var w := Visit(obj, hasParent, collection, ctx);
      w.status.Pass? ==> Mirrors(w.collection[obj.name], obj, hasParent)
    decreases obj, 1, 0
  {
    var w := Visit(obj, hasParent, collection, ctx);
    if w.status.Pass? {
      var ctx' := WithData(obj.kind, ctx).value;
      ChildrenMirror(obj, |obj.children|, ctx');
    }
  }

  /** Nodes of the first `n` children survive a change of the collection elsewhere. */
  lemma {:induction false} MirrorsChildrenFrame(c: map<string, SceneNode>, c': map<string, SceneNode>, parent: HostObject, n: nat)
    requires n <= |parent.children| && MirrorsChildren(c, parent, n)
    requires forall i :: 0 <= i < n ==>
      parent.children[i].name in c && parent.children[i].name in c' && c'[parent.children[i].name] == c[parent.children[i].name]
    ensures MirrorsChildren(c', parent, n)
  {
    if n > 0 {
      MirrorsChildrenFrame(c, c', parent, n - 1);
    }
  }

  /** Adding the last child's node keeps the earlier children's nodes, as the names differ. */
  lemma MirrorsChildrenStep(c: map<string, SceneNode>, c': map<string, SceneNode>, parent: HostObject, n: nat)
    requires 0 < n <= |parent.children| && DistinctSiblings(parent)
    requires c.Keys == ChildNames(parent, n - 1) && MirrorsChildren(c, parent, n - 1)
    requires c'.Keys == c.Keys + {parent.children[n - 1].name}
    requires forall k :: k in c && k != parent.children[n - 1].name ==> c'[k] == c[k]
    requires Mirrors(c'[parent.children[n - 1].name], parent.children[n - 1], true)
    ensures c'.Keys == ChildNames(parent, n) && MirrorsChildren(c', parent, n)
  {
    forall i | 0 <= i < n - 1
      ensures parent.children[i].name in c && parent.children[i].name in c' && c'[parent.children[i].name] == c[parent.children[i].name]
    {
      assert parent.children[i].name in c;
      assert parent.children[i].name != parent.children[n - 1].name;
    }
    MirrorsChildrenFrame(c, c', parent, n - 1);
  }

  lemma {:induction false} ChildrenMirror(parent: HostObject, n: nat, ctx: Context)
    requires n <= |parent.children| && DistinctSiblings(parent)
    ensures var w := VisitChildren(parent, n, ctx);
      w.status.Pass? ==> w.collection.Keys == ChildNames(parent, n) && MirrorsChildren(w.collection, parent, n)
    decreases parent, 0, n
  {
    if n > 0 {
      var w := VisitChildren(parent, n - 1, ctx);
      ChildrenMirror(parent, n - 1, ctx);
      if w.status.Pass? {
        var child := parent.children[n - 1];
        ChildStep(parent, n - 1, ctx, w.collection, w.ctx);
        VisitMirrors(child, true, w.collection, w.ctx);
        var v := Visit(child, true, w.collection, w.ctx);
        if v.status.Pass? {
          MirrorsChildrenStep(w.collection, v.collection, parent, n);
        }
      }
    }
  }

  /** A node's data link names a resource the context holds. */
  predicate Resolved(link: Link, ctx: Context)
  {
    match link
    case Unlinked => true
    case LightLink(name) => name in ctx.lights
    case MeshLink(name) => name in ctx.meshes
  }

  /** An object the exporter accepts: a supported kind whose data is written in `ctx`. */
  predicate Accepted(o: HostObject, ctx: Context)
  {
    !o.kind.OtherKind? && Resolved(LinkOf(o.kind), ctx)
  }

  lemma AcceptedLift(objs: seq<HostObject>, ctx: Context, ctx': Context)
    requires Extends(ctx, ctx') && forall o :: o in objs ==> Accepted(o, ctx)
    ensures forall o :: o in objs ==> Accepted(o, ctx')
  {
  }

  /** After a walk that passed, every object of the subtree is of a supported kind and the
      data its node links to is among the written resources. */
  lemma {:induction false} VisitAccepted(obj: HostObject, hasParent: bool, collection: map<string, SceneNode>, ctx: Context)
    ensures var w := Visit(obj, hasParent, collection, ctx);
      w.status.Pass? ==> forall o :: o in Subtree(obj) ==> Accepted(o, w.ctx)
    decreases obj, 1, 0
  {
    var w := Visit(obj, hasParent, collection, ctx);
    if w.status.Pass? {
      var ctx' := WithData(obj.kind, ctx).value;
      assert Accepted(obj, ctx');
      ChildrenExtend(obj, |obj.children|, ctx');
      ChildrenAccepted(obj, |obj.children|, ctx');
      AcceptedLift([obj], ctx', w.ctx);
    }
  }

  lemma {:induction false} ChildrenAccepted(parent: HostObject, n: nat, ctx: Context)
    requires n <= |parent.children|
    ensures var w := VisitChildren(parent, n, ctx);
      w.status.Pass? ==> forall o :: o in Descendants(parent, n) ==> Accepted(o, w.ctx)
    decreases parent, 0, n
  {
    if n > 0 {
      var w := VisitChildren(parent, n - 1, ctx);
      if w.status.Pass? {
        var child := parent.children[n - 1];
        ChildrenAccepted(parent, n - 1, ctx);
        ChildStep(parent, n - 1, ctx, w.collection, w.ctx);
        var v := Visit(child, true, w.collection, w.ctx);
        if v.status.Pass? {
          VisitExtends(child, true, w.collection, w.ctx);
          AcceptedLift(Descendants(parent, n - 1), w.ctx, v.ctx);
          VisitAccepted(child, true, w.collection, w.ctx);
        }
      }
    }
  }
}
