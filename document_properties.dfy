/** What the exporter guarantees about the whole document, or about its refusal. */
module DocumentProperties {
  import opened Outcomes
  import opened Problems
  import opened SceneExport
  import opened SceneExportProperties

  /** The objects reached from the first `n` entries of the object list: the subtrees of
      the entries without a parent, in order. */
  function Reached(objects: seq<Listed>, n: nat): seq<HostObject>
    requires n <= |objects|
  {
    if n == 0 then []
    else if objects[n - 1].parented then Reached(objects, n - 1)
    else Reached(objects, n - 1) + Subtree(objects[n - 1].entry)
  }

  /** The names of the roots among the first `n` entries. */
  function RootNames(objects: seq<Listed>, n: nat): (r: set<string>)
    requires n <= |objects|
    ensures forall i :: 0 <= i < n && !objects[i].parented ==> objects[i].entry.name in r
  {
    if n == 0 then {}
    else if objects[n - 1].parented then RootNames(objects, n - 1)
    else RootNames(objects, n - 1) + {objects[n - 1].entry.name}
  }

  /** Roots have distinct names and no two siblings share a name: both follow from the
      host's unique object names. */
  ghost predicate UniqueNames(objects: seq<Listed>)
  {
    && (forall i, j :: 0 <= i < j < |objects| && !objects[i].parented && !objects[j].parented ==>
          objects[i].entry.name != objects[j].entry.name)
    && (forall i :: 0 <= i < |objects| ==> DistinctSiblings(objects[i].entry))
  }

  /** Each root among the first `n` entries has a mirroring node in `c` under its name. */
  ghost predicate MirrorsRoots(c: map<string, SceneNode>, objects: seq<Listed>, n: nat)
    requires n <= |objects|
  {
    n == 0 ||
      (MirrorsRoots(c, objects, n - 1)
       && (objects[n - 1].parented ||
            (objects[n - 1].entry.name in c && Mirrors(c[objects[n - 1].entry.name], objects[n - 1].entry, false))))
  }

  lemma {:induction false} MirrorsRootsFrame(c: map<string, SceneNode>, c': map<string, SceneNode>, objects: seq<Listed>, n: nat)
    requires n <= |objects| && MirrorsRoots(c, objects, n)
    requires forall i :: 0 <= i < n && !objects[i].parented ==>
      objects[i].entry.name in c && objects[i].entry.name in c' && c'[objects[i].entry.name] == c[objects[i].entry.name]
    ensures MirrorsRoots(c', objects, n)
  {
    if n > 0 {
      MirrorsRootsFrame(c, c', objects, n - 1);
    }
  }

  lemma MirrorsRootsStep(c: map<string, SceneNode>, c': map<string, SceneNode>, objects: seq<Listed>, n: nat)
    requires 0 < n <= |objects| && !objects[n - 1].parented && UniqueNames(objects)
    requires c.Keys == RootNames(objects, n - 1) && MirrorsRoots(c, objects, n - 1)
    requires c'.Keys == c.Keys + {objects[n - 1].entry.name}
    requires forall k :: k in c && k != objects[n - 1].entry.name ==> c'[k] == c[k]
    requires Mirrors(c'[objects[n - 1].entry.name], objects[n - 1].entry, false)
    ensures c'.Keys == RootNames(objects, n) && MirrorsRoots(c', objects, n)
  {
    forall i | 0 <= i < n - 1 && !objects[i].parented
      ensures objects[i].entry.name in c && objects[i].entry.name in c' && c'[objects[i].entry.name] == c[objects[i].entry.name]
    {
      assert objects[i].entry.name != objects[n - 1].entry.name;
    }
    MirrorsRootsFrame(c, c', objects, n - 1);
  }

  /** A walk of the roots that passed holds one node per root, each mirroring its tree. */
  lemma {:induction false} RootsMirror(objects: seq<Listed>, n: nat)
    requires n <= |objects| && UniqueNames(objects)
    ensures var w := VisitRoots(objects, n);
      w.status.Pass? ==> w.collection.Keys == RootNames(objects, n) && MirrorsRoots(w.collection, objects, n)
  {
    if n > 0 {
      RootsMirror(objects, n - 1);
      var w := VisitRoots(objects, n - 1);
      if w.status.Pass? && !objects[n - 1].parented {
        var root := objects[n - 1].entry;
        VisitMirrors(root, false, w.collection, w.ctx);
        var v := Visit(root, false, w.collection, w.ctx);
        if v.status.Pass? {
          MirrorsRootsStep(w.collection, v.collection, objects, n);
        }
      }
    }
  }

  /** Every resource of the walk comes from a reached object with that data name. */
  lemma {:induction false} RootsSound(objects: seq<Listed>, n: nat)
    requires n <= |objects|
    ensures Sound(VisitRoots(objects, n).ctx, Reached(objects, n))
  {
    if n > 0 {
      RootsSound(objects, n - 1);
      var w := VisitRoots(objects, n - 1);
      if w.status.Fail? || objects[n - 1].parented {
        if !objects[n - 1].parented {
          SoundGrow(w.ctx, Reached(objects, n - 1), Subtree(objects[n - 1].entry));
        }
      } else {
        VisitSound(objects[n - 1].entry, false, w.collection, w.ctx, Reached(objects, n - 1));
      }
    }
  }

  /** A failed walk names a reached object. */
  lemma {:induction false} RootsBlame(objects: seq<Listed>, n: nat)
    requires n <= |objects|
    ensures var w := VisitRoots(objects, n);
      w.status.Fail? ==> w.status.error.ObjectError? && exists o :: o in Reached(objects, n) && o.name == w.status.error.objectName
  {
    if n > 0 {
      RootsBlame(objects, n - 1);
      var w := VisitRoots(objects, n - 1);
      if w.status.Fail? {
        if !objects[n - 1].parented {
          var o :| o in Reached(objects, n - 1) && o.name == w.status.error.objectName;
          assert o in Reached(objects, n);
        }
      } else if !objects[n - 1].parented {
        var root := objects[n - 1].entry;
        VisitBlame(root, false, w.collection, w.ctx);
        var v := Visit(root, false, w.collection, w.ctx);
        if v.status.Fail? {
          var o :| o in Subtree(root) && o.name == v.status.error.objectName;
          assert o in Reached(objects, n);
        }
      }
    }
  }

  /** After a walk of the roots that passed, every reached object is accepted. */
  lemma {:induction false} RootsAccepted(objects: seq<Listed>, n: nat)
    requires n <= |objects|
    ensures var w := VisitRoots(objects, n);
      w.status.Pass? ==> forall o :: o in Reached(objects, n) ==> Accepted(o, w.ctx)
  {
    if n > 0 {
      var w := VisitRoots(objects, n - 1);
      if w.status.Pass? {
        RootsAccepted(objects, n - 1);
        if !objects[n - 1].parented {
          var root := objects[n - 1].entry;
          var v := Visit(root, false, w.collection, w.ctx);
          if v.status.Pass? {
            VisitExtends(root, false, w.collection, w.ctx);
            AcceptedLift(Reached(objects, n - 1), w.ctx, v.ctx);
            VisitAccepted(root, false, w.collection, w.ctx);
          }
        }
      }
    }
  }

  /** The exporter refuses a scene for its units exactly when the scene is not in meters;
      any other refusal names an object reached from a root. */
  lemma ExportRefusals(scene: Scene)
    ensures Exported(scene) == Failure(NotInMeters) <==> !InMeters(scene)
    ensures Exported(scene).Failure? && InMeters(scene) ==>
      Exported(scene).error.ObjectError? &&
      exists o :: o in Reached(scene.objects, |scene.objects|) && o.name == Exported(scene).error.objectName
  {
    RootsBlame(scene.objects, |scene.objects|);
  }

  /** The document written for a scene: one scene node per root mirroring its object tree;
      every mesh and light in it is the flattening or description of the data of a reached
      object under that data name; every reached object is of a supported kind and the
      data its node links to is in the document. */
  lemma ExportedDocument(scene: Scene)
    requires UniqueNames(scene.objects) && Exported(scene).Success?
    ensures var doc := Exported(scene).value;
      && doc.fpsNumerator == scene.fps && doc.fpsDenominator == scene.fpsBase
      && doc.sceneNodes.Keys == RootNames(scene.objects, |scene.objects|)
      && MirrorsRoots(doc.sceneNodes, scene.objects, |scene.objects|)
      && Sound(Context(doc.meshes, doc.lights), Reached(scene.objects, |scene.objects|))
      && forall o :: o in Reached(scene.objects, |scene.objects|) ==> Accepted(o, Context(doc.meshes, doc.lights))
  {
    var n := |scene.objects|;
    RootsMirror(scene.objects, n);
    RootsSound(scene.objects, n);
    RootsAccepted(scene.objects, n);
    assert Context(Exported(scene).value.meshes, Exported(scene).value.lights) == VisitRoots(scene.objects, n).ctx;
  }
}
