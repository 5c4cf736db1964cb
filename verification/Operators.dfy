/** The decisions the operators make: which armature auto-setup uses, whether an instance for
    it exists already, which of its meshes are linked, and when creating an instance is refused.
    Both auto-setup and `CreateInstance` run `ensure_initial_collections` before their checks, so
    a cancelled run still leaves `LVCP` and `Lights` in place; `CreateInstance` models this. */
module Operators {
  import opened Wrappers
  import opened Seqs
  import opened Naming
  import opened SceneModel
  import opened Registry

  const HeadBone := "Head_M"

  /** An armature whose name matches `^(Art|Avatar)_[a-zA-Z]+(?:_\d{2})?$` and that has a `Head_M` bone. */
  predicate IsSuitableArmature(o: Obj)
  {
    o.kind == Armature && MatchesArmaturePattern(o.name) && HeadBone in o.bones
  }

  /** A child auto-setup links: a mesh named Body, Face or Hair, with or without a `.` suffix. */
  predicate IsAutoLinkMesh(o: Obj)
  {
    o.kind == Mesh && IsTargetMeshName(o.name)
  }

  /** `for obj in objects: if p(obj): found.append(obj)`. */
  method Collect(objects: seq<Obj>, p: Obj -> bool) returns (found: seq<Obj>)
    ensures found == Filter(objects, p)
  {
    found := [];
    var i := 0;
    while i < |objects|
      invariant 0 <= i <= |objects|
      invariant found == Filter(objects[..i], p)
    {
      assert objects[..i + 1] == objects[..i] + [objects[i]];
      FilterSnoc(objects[..i], objects[i], p);
      if p(objects[i]) {
        found := found + [objects[i]];
      }
      i := i + 1;
    }
    assert objects[..i] == objects;
  }

  /** `find_suitable_armatures`: the suitable armatures, in scene order. */
  method FindSuitableArmatures(objects: seq<Obj>) returns (found: seq<Obj>)
    ensures found == Filter(objects, IsSuitableArmature)
  {
    found := Collect(objects, IsSuitableArmature);
  }

  /** Exactly the suitable armatures of the scene are found. */
  lemma SuitableArmaturesExactly(objects: seq<Obj>)
    ensures forall i :: 0 <= i < |Filter(objects, IsSuitableArmature)| ==>
      Filter(objects, IsSuitableArmature)[i] in objects && IsSuitableArmature(Filter(objects, IsSuitableArmature)[i])
    ensures forall i :: 0 <= i < |objects| && IsSuitableArmature(objects[i]) ==> objects[i] in Filter(objects, IsSuitableArmature)
  {
    FilterMembers(objects, IsSuitableArmature);
  }

  /** The auto-link loop over the armature's children. */
  method MeshesToLink(children: seq<Obj>) returns (meshes: seq<Obj>)
    ensures meshes == Filter(children, IsAutoLinkMesh)
  {
    meshes := Collect(children, IsAutoLinkMesh);
  }

  /** Exactly the MESH children named Body, Face or Hair (before any `.`) are linked. */
  lemma MeshesToLinkExactly(children: seq<Obj>)
    ensures forall i :: 0 <= i < |Filter(children, IsAutoLinkMesh)| ==>
      var o := Filter(children, IsAutoLinkMesh)[i];
      o in children && o.kind == Mesh && MeshBaseName(o.name) in TargetMeshNames
    ensures forall i :: 0 <= i < |children| && children[i].kind == Mesh && MeshBaseName(children[i].name) in TargetMeshNames ==>
      children[i] in Filter(children, IsAutoLinkMesh)
  {
    FilterMembers(children, IsAutoLinkMesh);
  }

  datatype CancelReason = ArmatureNotFound | ArmatureNotSuitable | NoSuitableArmature | InstanceExists

  datatype Outcome = Proceed(arm: Obj, baseName: string) | Cancelled(reason: CancelReason)

  /** The armature `LVCP_OT_AutoSetupForArmature.execute` settles on: the named one, which must
      exist and be suitable, or without a name the first suitable one. */
  function ChooseArmature(objects: seq<Obj>, armatureName: string): (r: Outcome)
    ensures r.Proceed? ==> r.arm in objects && IsSuitableArmature(r.arm)
    ensures r.Proceed? && armatureName != "" ==> r.arm.name == armatureName
  {
    var found := Filter(objects, IsSuitableArmature);
    FilterMembers(objects, IsSuitableArmature);
    if armatureName != "" then
      match IndexOfName(objects, armatureName)
      case None => Cancelled(ArmatureNotFound)
      case Some(k) =>
        if objects[k] in found then Proceed(objects[k], GetBaseNameFromArmature(armatureName))
        else Cancelled(ArmatureNotSuitable)
    else if found != [] then Proceed(found[0], GetBaseNameFromArmature(found[0].name))
    else Cancelled(NoSuitableArmature)
  }

  /** The cancel cases of the armature choice: a named armature that is missing or unsuitable,
      or no name and no suitable armature at all; otherwise the choice proceeds. */
  lemma ChooseArmatureCases(objects: seq<Obj>, armatureName: string)
    ensures armatureName != "" ==>
      (ChooseArmature(objects, armatureName) == Cancelled(ArmatureNotFound) <==> armatureName !in NamesOf(objects))
    ensures armatureName != "" && armatureName in NamesOf(objects) ==>
      var o := objects[IndexOfName(objects, armatureName).value];
      (ChooseArmature(objects, armatureName).Proceed? <==> IsSuitableArmature(o))
    ensures armatureName == "" ==>
      (ChooseArmature(objects, armatureName) == Cancelled(NoSuitableArmature) <==>
       forall i :: 0 <= i < |objects| ==> !IsSuitableArmature(objects[i]))
    ensures ChooseArmature(objects, armatureName).Proceed? ==>
      ChooseArmature(objects, armatureName).baseName == GetBaseNameFromArmature(ChooseArmature(objects, armatureName).arm.name)
  {
    FilterMembers(objects, IsSuitableArmature);
    if armatureName == "" && forall i :: 0 <= i < |objects| ==> !IsSuitableArmature(objects[i]) {
      FilterNone(objects, IsSuitableArmature);
    }
  }

  /** Without a name, the first suitable armature in scene order is chosen. */
  lemma ChooseFirstSuitable(objects: seq<Obj>, j: nat)
    requires j < |objects| && IsSuitableArmature(objects[j])
    requires forall i :: 0 <= i < j ==> !IsSuitableArmature(objects[i])
    ensures ChooseArmature(objects, "") == Proceed(objects[j], GetBaseNameFromArmature(objects[j].name))
  {
    assert objects == objects[..j] + [objects[j]] + objects[j + 1..];
    FilterFirst(objects[..j], objects[j], objects[j + 1..], IsSuitableArmature);
  }

  /** The operator's `poll`: offered only when some suitable armature exists. */
  predicate AutoSetupPoll(objects: seq<Obj>)
  {
    Filter(objects, IsSuitableArmature) != []
  }

  /** When the operator is offered, a run without an armature name finds one, and only then. */
  lemma PollMeansChoice(objects: seq<Obj>)
    ensures AutoSetupPoll(objects) <==> ChooseArmature(objects, "").Proceed?
  {
  }

  /** The children after auto-setup has tagged the meshes it links with the instance's collection. */
  function AutoLinked(children: seq<Obj>, collection: string): (r: seq<Obj>)
    ensures |r| == |children|
  {
    seq(|children|, i requires 0 <= i < |children| =>
      if IsAutoLinkMesh(children[i]) then Tagged(children[i], Some(collection)) else children[i])
  }

  /** The tagging loop over `meshes_to_link`, on the armature's children. */
  method TagAutoLinked(children: seq<Obj>, collection: string) returns (r: seq<Obj>)
    ensures r == AutoLinked(children, collection)
  {
    r := children;
    var i := 0;
    while i < |children|
      invariant 0 <= i <= |children| && |r| == |children|
      invariant forall j :: 0 <= j < i ==> r[j] == AutoLinked(children, collection)[j]
      invariant forall j :: i <= j < |children| ==> r[j] == children[j]
    {
      if IsAutoLinkMesh(children[i]) {
        r := r[i := Tagged(children[i], Some(collection))];
      }
      i := i + 1;
    }
  }

  /** After auto-setup, the instance finds every linked mesh among its objects; no other child
      changes. */
  lemma AutoLinkedFound(children: seq<Obj>, collection: string)
    ensures forall i :: 0 <= i < |children| && IsAutoLinkMesh(children[i]) ==>
      AutoLinked(children, collection)[i] in GetObjectsWithLvcp(AutoLinked(children, collection), Some(collection))
    ensures forall i :: 0 <= i < |children| && !IsAutoLinkMesh(children[i]) ==>
      AutoLinked(children, collection)[i] == children[i]
    ensures NamesOf(AutoLinked(children, collection)) == NamesOf(children)
  {
    var r := AutoLinked(children, collection);
    forall i | 0 <= i < |children| && IsAutoLinkMesh(children[i])
      ensures r[i] in GetObjectsWithLvcp(r, Some(collection))
    {
      assert HasLvcp(r[i], Some(collection));
    }
    SameNames(children, r);
  }

  /** The search loop with `break`: the first entry whose collection is named `collName`. */
  method FindExistingInstance(lists: seq<Entry>, collName: string) returns (found: int)
    ensures found == Find(EntryCollectionOptions(lists), Some(collName))
  {
    found := -1;
    var i := 0;
    while i < |lists|
      invariant 0 <= i <= |lists|
      invariant forall j :: 0 <= j < i ==> lists[j].collection != Some(collName)
    {
      if lists[i].collection.Some? && lists[i].collection.value == collName {
        found := i;
        break;
      }
      i := i + 1;
    }
    FindFirst(EntryCollectionOptions(lists), Some(collName), found);
  }

  /** An instance exists for a base name exactly when some entry's collection is `LVCP_{base}`. */
  lemma ExistingInstanceFound(lists: seq<Entry>, base: string)
    ensures Find(EntryCollectionOptions(lists), Some(InstanceCollectionName(base))) != -1 <==>
      exists i :: 0 <= i < |lists| && lists[i].collection == Some(InstanceCollectionName(base))
  {
    var cs := EntryCollectionOptions(lists);
    if exists i :: 0 <= i < |lists| && lists[i].collection == Some(InstanceCollectionName(base)) {
      var i :| 0 <= i < |lists| && lists[i].collection == Some(InstanceCollectionName(base));
      assert cs[i] == Some(InstanceCollectionName(base));
    }
  }

  /** What auto-setup decides: the armature choice, then a refusal when an instance for its base
      name exists already. */
  function AutoSetupOutcome(lists: seq<Entry>, objects: seq<Obj>, armatureName: string): (r: Outcome)
    ensures r.Proceed? ==> IsSuitableArmature(r.arm) && r.arm in objects
    ensures r.Proceed? ==> forall i :: 0 <= i < |lists| ==> lists[i].collection != Some(InstanceCollectionName(r.baseName))
  {
    match ChooseArmature(objects, armatureName)
    case Cancelled(reason) => Cancelled(reason)
    case Proceed(arm, base) =>
      if Find(EntryCollectionOptions(lists), Some(InstanceCollectionName(base))) != -1 then Cancelled(InstanceExists)
      else Proceed(arm, base)
  }

  /** Auto-setup is idempotent: once an instance for the armature's base name is registered, a
      second run on the same armature cancels. */
  lemma AutoSetupTwiceCancels(lists: seq<Entry>, objects: seq<Obj>, armatureName: string, added: Entry)
    requires AutoSetupOutcome(lists, objects, armatureName).Proceed?
    requires added.collection == Some(InstanceCollectionName(AutoSetupOutcome(lists, objects, armatureName).baseName))
    ensures AutoSetupOutcome(lists + [added], objects, armatureName) == Cancelled(InstanceExists)
  {
    var base := AutoSetupOutcome(lists, objects, armatureName).baseName;
    var grown := lists + [added];
    assert grown[|lists|].collection == Some(InstanceCollectionName(base));
    ExistingInstanceFound(grown, base);
  }

  /** The checks at the start of `LVCP_OT_AutoSetupForArmature.execute`. */
  method AutoSetupCheck(lists: seq<Entry>, objects: seq<Obj>, armatureName: string) returns (r: Outcome)
    ensures r == AutoSetupOutcome(lists, objects, armatureName)
  {
    var found := FindSuitableArmatures(objects);
    var arm: Option<Obj> := None;
    if armatureName != "" {
      var k := IndexOfName(objects, armatureName);
      if k.None? {
        return Cancelled(ArmatureNotFound);
      }
      if objects[k.value] !in found {
        return Cancelled(ArmatureNotSuitable);
      }
      arm := Some(objects[k.value]);
    } else if found != [] {
      arm := Some(found[0]);
    }
    if arm.None? {
      return Cancelled(NoSuitableArmature);
    }
    var base := GetBaseNameFromArmature(arm.value.name);
    var existing := FindExistingInstance(lists, InstanceCollectionName(base));
    if existing != -1 {
      return Cancelled(InstanceExists);
    }
    r := Proceed(arm.value, base);
  }

  /** `LVCP_OT_CreateInstance.execute` cancels when parenting is asked for and the active object
      is missing or not an armature. */
  predicate CreateInstanceRefused(setChildConstraints: bool, activeObject: Option<Obj>)
  {
    setChildConstraints && (activeObject.None? || activeObject.value.kind != Armature)
  }

  /** `LVCP_OT_CreateInstance.execute`: the initial collections are ensured first, so they exist
      even when the run is then refused for want of an active armature. Otherwise the instance
      collection (`collName`, the name the host gives `LVCP_{name}`) is created and moved under
      "LVCP", and an entry for it is appended and made active. */
  method CreateInstance(lvcp: Lvcp, scene: Scene, name: string, setChildConstraints: bool, activeObject: Option<Obj>,
                        lvcpName: string, lightsName: string, collName: string) returns (finished: bool)
    requires scene.Valid() && lvcpName != lightsName && collName != lvcpName && collName != lightsName
    requires Named(lvcpName) !in scene.colls && Named(lightsName) !in scene.colls && Named(collName) !in scene.colls
    requires lvcp.lvcpCollection.Some? ==> Named(lvcp.lvcpCollection.value) in scene.colls
    requires lvcp.lightCollection.Some? ==> Named(lvcp.lightCollection.value) in scene.colls
    modifies lvcp, scene
    ensures scene.Valid() && scene.objects == old(scene.objects)
    ensures finished <==> !CreateInstanceRefused(setChildConstraints, activeObject)
    ensures lvcp.lvcpCollection == if old(lvcp.lvcpCollection).Some? then old(lvcp.lvcpCollection) else Some(lvcpName)
    ensures lvcp.lightCollection == if old(lvcp.lightCollection).Some? then old(lvcp.lightCollection) else Some(lightsName)
    ensures var h := InitialHierarchy(old(scene.children), old(lvcp.lvcpCollection), old(lvcp.lightCollection), lvcpName, lightsName);
      scene.children == if finished then LinkResult(Created(h, collName), Named(lvcp.lvcpCollection.value), collName, true) else h
    ensures !finished ==> lvcp.lists == old(lvcp.lists) && lvcp.idx == old(lvcp.idx)
    ensures finished ==>
      && lvcp.lists == old(lvcp.lists) + [Entry(name, Some(collName))] && lvcp.idx == |old(lvcp.lists)|
      && lvcp.List() == Some(Entry(name, Some(collName)))
      && collName in scene.children[Named(lvcp.lvcpCollection.value)] && collName !in scene.children[SceneRoot]
  {
    var _ := lvcp.EnsureInitialCollections(scene, lvcpName, lightsName);
    if CreateInstanceRefused(setChildConstraints, activeObject) {
      return false;
    }
    scene.CreateUnder(Named(lvcp.lvcpCollection.value), collName);
    lvcp.AddList(Entry(name, Some(collName)));
    finished := true;
  }
}
