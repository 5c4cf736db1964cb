/** One LVCP instance's light controls (`LVCP_List_Main`): the light group whose empties feed the
    light master's driver, the active light and its index, and the `_is_updating` flag that keeps
    the two update callbacks from re-entering each other. Assigning a property whose declaration
    has an `update=` callback runs that callback, so each such assignment is a method here that
    stores the value and then calls the callback. */
module LightSync {
  import opened Wrappers
  import opened Seqs
  import opened Naming
  import opened SceneModel
  import opened Drivers

  /** The hard maximum of the `active_light_index` IntProperty (its minimum is 0). */
  const IndexMax := 3

  // Arguments of the `set_drivers` calls made for the light master and for a light empty.
  const SingleProp := "SINGLE_PROP"
  const Loc := "LOC"
  const LightPath := "[\"" + PropLight + "\"]"
  const MatrixWorld := "matrix_world"
  const ZeroVector := VectorValue(0.0, 0.0, 0.0)

  /** The value `active_light_index = v` leaves behind: Blender clamps into the property's range. */
  function StoreIndex(v: int): (r: int)
    ensures 0 <= r <= IndexMax
    ensures 0 <= v <= IndexMax ==> r == v
    ensures v < 0 ==> r == 0
    ensures v > IndexMax ==> r == IndexMax
  {
    if v < 0 then 0 else if v > IndexMax then IndexMax else v
  }

  /** `max(0, len(objects) - 1)`: the largest index the group allows. */
  function MaxIndex(n: nat): nat
  {
    if n == 0 then 0 else n - 1
  }

  /** `max(0, min(index, max_idx))`. */
  function ClampedIndex(index: int, n: nat): (r: nat)
    ensures r <= MaxIndex(n) && (n > 0 ==> r < n)
    ensures 0 <= index <= MaxIndex(n) ==> r == index
  {
    if index < 0 then 0 else if index > MaxIndex(n) then MaxIndex(n) else index
  }

  function Dist(a: int, b: int): nat
  {
    if a <= b then b - a else a - b
  }

  /** Clamping picks the allowed index nearest to the requested one, and a second clamp changes
      nothing. */
  lemma ClampedIndexNearest(index: int, n: nat, j: int)
    requires 0 <= j <= MaxIndex(n)
    ensures Dist(ClampedIndex(index, n), index) <= Dist(j, index)
    ensures ClampedIndex(ClampedIndex(index, n), n) == ClampedIndex(index, n)
  {
  }

  /** `_make_lights_arg_string`: `var0,...,var{n-1}` for a group of n objects. */
  function MakeLightsArgString(objects: seq<string>): (r: string)
    ensures r == "" <==> objects == []
    ensures objects != [] ==> Split(r, ',') == VarNames(|objects|)
  {
    LightsArgStringSplits(|objects|);
    assert objects != [] ==> VarNames(|objects|)[0] == VarName(0) && VarName(0)[..3] == "var";
    LightsArgString(|objects|)
  }

  /** The light master's driver expression for a group of lights. */
  function MasterExpression(objects: seq<string>): string
  {
    DriverExpression(MakeLightsArgString(objects))
  }

  /** Does the scene object called `name` carry the `vecLight` property? */
  predicate IsLightObject(objects: seq<Obj>, name: string)
  {
    match IndexOfName(objects, name)
    case Some(k) => PropLight in objects[k].props
    case None => false
  }

  /** `get_non_light_objects`: the group's objects without `vecLight`, in group order. */
  function GetNonLightObjects(objects: seq<Obj>, group: seq<string>): (r: seq<string>)
    ensures forall i :: 0 <= i < |r| ==> r[i] in group && !IsLightObject(objects, r[i])
    ensures forall i :: 0 <= i < |group| && !IsLightObject(objects, group[i]) ==> group[i] in r
  {
    FilterMembers(group, n => !IsLightObject(objects, n));
    Filter(group, n => !IsLightObject(objects, n))
  }

  /** The non-light objects of two parts of a group are those of each part, in order. */
  lemma GetNonLightObjectsOrder(objects: seq<Obj>, a: seq<string>, b: seq<string>)
    ensures GetNonLightObjects(objects, a + b) == GetNonLightObjects(objects, a) + GetNonLightObjects(objects, b)
  {
    FilterConcat(a, b, n => !IsLightObject(objects, n));
  }

  /** `light_group.get("lightMaster")` read as an object pointer. */
  function MasterOf(colls: map<CollKey, Coll>, group: Option<string>): Option<string>
  {
    if group.Some? && Named(group.value) in colls && PropMaster in colls[Named(group.value)].props
       && colls[Named(group.value)].props[PropMaster].ObjectRef?
    then Some(colls[Named(group.value)].props[PropMaster].obj)
    else None
  }

  // ---------------------------------------------------------------------------
  // The active light, its index and the master's `idx`.

  /** `active_light`, `active_light_index` and the light master's `idx` custom property, which
      the master's driver reads to pick a light. */
  datatype LightState = LightState(activeLight: Option<string>, index: int, masterIdx: int)

  /** The index, the active light and the master's `idx` all name the same light of the group. */
  predicate Synced(s: LightState, objects: seq<string>, hasMaster: bool)
  {
    0 <= s.index < |objects| && s.activeLight == Some(objects[s.index]) && (hasMaster ==> s.masterIdx == s.index)
  }

  /** `update_active_light_index` with the flag clear: clamp the index to the group, write it to
      the master, make the light at that index active, and store the clamped index. */
  function IndexSynced(s: LightState, objects: seq<string>, hasMaster: bool): (r: LightState)
    ensures 0 <= r.index <= IndexMax && r.index <= MaxIndex(|objects|)
    ensures 0 <= s.index <= IndexMax && objects != [] ==> Synced(r, objects, hasMaster)
    ensures 0 <= s.index <= IndexMax && s.index < |objects| ==> r.index == s.index
    ensures hasMaster && 0 <= s.index <= IndexMax ==> r.masterIdx == r.index
    ensures !hasMaster ==> r.masterIdx == s.masterIdx
    ensures objects == [] ==> r.activeLight == s.activeLight
  {
    var c := ClampedIndex(s.index, |objects|);
    LightState(if objects != [] then Some(objects[c]) else s.activeLight, StoreIndex(c),
               if hasMaster then c else s.masterIdx)
  }

  /** Syncing a second time changes nothing. */
  lemma IndexSyncedIdempotent(s: LightState, objects: seq<string>, hasMaster: bool)
    requires 0 <= s.index <= IndexMax
    ensures IndexSynced(IndexSynced(s, objects, hasMaster), objects, hasMaster) == IndexSynced(s, objects, hasMaster)
  {
  }

  /** The light `activeLight` names is one of the group's objects. */
  predicate Chosen(s: LightState, objects: seq<string>)
  {
    s.activeLight.Some? && s.activeLight.value in objects
  }

  /** `update_active_light` as written, flag clear: find the chosen light in the group and, with
      the flag SET, store its position as the index; the index callback therefore returns at once
      and neither the master's `idx` nor the selection follows. */
  function LightChosenAsWritten(s: LightState, objects: seq<string>): (r: LightState)
    ensures r.activeLight == s.activeLight && r.masterIdx == s.masterIdx
    ensures !Chosen(s, objects) ==> r == s
    ensures Chosen(s, objects) ==> r.index == StoreIndex(Find(objects, s.activeLight.value))
  {
    if s.activeLight.None? then s
    else
      var i := Find(objects, s.activeLight.value);
      if i == -1 then s else s.(index := StoreIndex(i))
  }

  /** The evidently intended `update_active_light`: storing the found position runs the index
      callback, which brings the master's `idx` (and the selection) along. */
  function LightChosen(s: LightState, objects: seq<string>, hasMaster: bool): (r: LightState)
    ensures !Chosen(s, objects) ==> r == s
  {
    if s.activeLight.None? then s
    else
      var i := Find(objects, s.activeLight.value);
      if i == -1 then s else IndexSynced(s.(index := StoreIndex(i)), objects, hasMaster)
  }

  /** Choosing a light of the group leaves index, active light and master in sync; a light at a
      position the index can hold stays the active one. */
  lemma LightChosenSynced(s: LightState, objects: seq<string>, hasMaster: bool)
    requires Chosen(s, objects)
    ensures Synced(LightChosen(s, objects, hasMaster), objects, hasMaster)
    ensures Find(objects, s.activeLight.value) <= IndexMax ==>
      LightChosen(s, objects, hasMaster).activeLight == s.activeLight &&
      LightChosen(s, objects, hasMaster).index == Find(objects, s.activeLight.value)
  {
    var i := Find(objects, s.activeLight.value);
    var t := s.(index := StoreIndex(i));
    assert 0 <= t.index <= IndexMax && objects != [];
    if i <= IndexMax {
      assert t.index == i && i < |objects|;
    }
  }

  /** Picking the second light of a synced two-light group: as written, the index moves to 1 but
      the master's `idx` stays 0, so the master's driver still reads the first light; the
      intended version moves the master too. */
  lemma ChosenLightLeavesMasterBehind()
    ensures var objects := ["A", "B"];
      var before := LightState(Some("A"), 0, 0);
      var picked := before.(activeLight := Some("B"));
      var written := LightChosenAsWritten(picked, objects);
      && Synced(before, objects, true)
      && written.index == 1 && written.masterIdx == 0 && !Synced(written, objects, true)
      && Synced(LightChosen(picked, objects, true), objects, true)
      && LightChosen(picked, objects, true).masterIdx == 1
  {
    var objects := ["A", "B"];
    assert objects[1] == "B" && objects[0] != "B";
    assert Find(objects, "B") == 1;
  }

  /** The scene conditions every callback keeps: well-linked collections and a selection of
      existing objects. */
  ghost predicate Ready(scene: Scene)
    reads scene
  {
    scene.Valid() && scene.selected <= NamesOf(scene.objects)
  }

  /** `select_object(name)` has run: only `name` is selected, and it is active, when it exists. */
  ghost predicate SelectedAlone(scene: Scene, name: string)
    reads scene
  {
    && scene.selected == (if name in NamesOf(scene.objects) then {name} else {})
    && (name in NamesOf(scene.objects) ==> scene.active == Some(name))
  }

  /** The three drivers of `ds`, component i of the light master's `vecLight`, evaluate
      `lvcp_driver_func(self["idx"],[var0,...])` over variables reading `vecLight[i]` of each
      object of `objects`, in order. */
  ghost predicate DrivesMaster(ds: seq<Driver>, objects: seq<string>)
    reads set d | d in ds
  {
    |ds| == 3 &&
    forall i :: 0 <= i < |ds| ==>
      && ds[i].expression == MasterExpression(objects)
      && ds[i].variables == ComponentVariables(objects, SingleProp, Loc, LightPath, "index", "", i)
  }

  /** `set_drivers` on the light master's `vecLight` over the group's objects, on the drivers a
      `driver_add` after `del_drivers` returns; `clear` selects the current version, which
      removes the old variables first, and the older one, which keeps them. */
  method DriveMaster(ds: seq<Driver>, objects: seq<string>, clear: bool)
    requires |ds| == 3 && DistinctDrivers(ds)
    requires !clear ==> forall i :: 0 <= i < |ds| ==> ds[i].variables == []
    modifies set d | d in ds
    ensures DrivesMaster(ds, objects)
  {
    SetDrivers(CurveList(ds), MasterExpression(objects), objects, SingleProp, Loc, LightPath, "index", "", true, clear);
  }

  /** The driver step of the current `update_light_group`: `del_drivers` on the master's
      `vecLight`, then, when the group has objects, `set_drivers` over them. */
  method RebuildMasterDrivers(anim: AnimData, master: string, objects: seq<string>)
    modifies anim
    ensures anim.vecLight - {master} == old(anim.vecLight) - {master}
    ensures master in anim.vecLight <==> objects != []
    ensures objects != [] ==> DrivesMaster(anim.vecLight[master], objects)
  {
    anim.DriverRemove(master);
    if objects != [] {
      var ds := anim.DriverAdd(master);
      DriveMaster(ds, objects, true);
    }
  }

  /** The three drivers of `ds`, on a light empty's `vecLight`, each evaluate `var0`, which reads
      component i of the empty's own `matrix_world[2]` (its local Z axis in world space). */
  ghost predicate DrivesOwnAxis(ds: seq<Driver>, empty: string)
    reads set d | d in ds
  {
    |ds| == 3 &&
    forall i :: 0 <= i < |ds| ==>
      && ds[i].expression == "var0"
      && ds[i].variables == ComponentVariables([empty], SingleProp, Loc, MatrixWorld, "[2]", "index", i)
  }

  /** `if collection.get("LL") is None: collection["LL"] = master` on the instance collection
      `k`: a missing key and a stored `None` both read as `None`. */
  function WithLL(colls: map<CollKey, Coll>, k: CollKey, master: string): (r: map<CollKey, Coll>)
    requires k in colls
    ensures r.Keys == colls.Keys && PropL in r[k].props && r[k].objects == colls[k].objects
    ensures PropL in colls[k].props && colls[k].props[PropL] != NoneValue ==> r == colls
    ensures (PropL !in colls[k].props || colls[k].props[PropL] == NoneValue) ==> r[k].props[PropL] == ObjectRef(master)
    ensures forall key :: key in colls[k].props && key != PropL ==> key in r[k].props && r[k].props[key] == colls[k].props[key]
    ensures forall k' :: k' in colls && k' != k ==> r[k'] == colls[k']
  {
    var props := colls[k].props;
    if PropL in props && props[PropL] != NoneValue then colls
    else colls[k := colls[k].(props := props[PropL := ObjectRef(master)])]
  }

  // ---------------------------------------------------------------------------
  // Re-linking the light group under the instance collection.

  /** The collection step of `update_light_group`: when the group is not a child of the
      instance collection `k`, unlink every `LightGroup_` child of `k`, then link the group. */
  function GroupRelinked(h: Hierarchy, k: CollKey, group: string): Hierarchy
    requires SceneRoot in h && k in h
  {
    if group in h[k] then h
    else LinkResult(h[k := Filter(h[k], NotPrefixedBy(LightGroupPrefix))], k, group, false)
  }

  /** Afterwards the group is a child of `k`; a group that was not there before is the only
      `LightGroup_` child; children without the prefix stay; other collections are untouched;
      and re-linking the same group changes nothing. */
  lemma GroupRelinkedPlaces(h: Hierarchy, k: CollKey, group: string)
    requires SceneRoot in h && k in h
    ensures var r := GroupRelinked(h, k, group);
      && r.Keys == h.Keys
      && group in r[k]
      && (group !in h[k] ==> forall c :: c in r[k] && LightGroupPrefix <= c ==> c == group)
      && (forall c :: c in h[k] && !(LightGroupPrefix <= c) ==> c in r[k])
      && (forall k' :: k' in h && k' != k ==> r[k'] == h[k'])
      && GroupRelinked(r, k, group) == r
  {
    if group !in h[k] {
      var f := Filter(h[k], NotPrefixedBy(LightGroupPrefix));
      FilterMembers(h[k], NotPrefixedBy(LightGroupPrefix));
      var r := GroupRelinked(h, k, group);
      assert r[k] == f + [group];
      forall c | c in h[k] && !(LightGroupPrefix <= c) ensures c in r[k] {
        var i :| 0 <= i < |h[k]| && h[k][i] == c;
        assert NotPrefixedBy(LightGroupPrefix)(h[k][i]);
      }
    }
  }

  /** The older `update_light_group` links unconditionally with the older `link_collection`:
      it reaches the same hierarchy, and Blender raises exactly when the group was already a
      child. */
  function GroupRelinkedLegacy(h: Hierarchy, k: CollKey, group: string): (Hierarchy, bool)
    requires SceneRoot in h && k in h
  {
    var h1 := if group in h[k] then h else h[k := Filter(h[k], NotPrefixedBy(LightGroupPrefix))];
    LegacyLinkResult(h1, k, group, false)
  }

  lemma GroupRelinkedLegacyAgrees(h: Hierarchy, k: CollKey, group: string)
    requires SceneRoot in h && k in h
    ensures GroupRelinkedLegacy(h, k, group) == (GroupRelinked(h, k, group), group !in h[k])
  {
    if group !in h[k] {
      var f := Filter(h[k], NotPrefixedBy(LightGroupPrefix));
      FilterMembers(h[k], NotPrefixedBy(LightGroupPrefix));
      assert group !in f;
    }
  }

  /** The collection step of the current `update_light_group` on the scene. */
  method RelinkGroup(scene: Scene, k: CollKey, group: string)
    requires scene.Valid() && k in scene.colls && Named(group) in scene.colls
    modifies scene
    ensures scene.Valid() && scene.objects == old(scene.objects) && scene.colls == old(scene.colls)
    ensures scene.selected == old(scene.selected) && scene.active == old(scene.active)
    ensures scene.children == GroupRelinked(old(scene.children), k, group)
  {
    if group !in scene.children[k] {
      scene.UnlinkPrefixedChildren(k, LightGroupPrefix);
      scene.LinkCollection(k, group, false);
    }
  }

  /** The collection step of the older `update_light_group` on the scene; `ok` is false where
      the older `link_collection` raises. */
  method RelinkGroupLegacy(scene: Scene, k: CollKey, group: string) returns (ok: bool)
    requires scene.Valid() && k in scene.colls && Named(group) in scene.colls
    modifies scene
    ensures scene.Valid() && scene.objects == old(scene.objects) && scene.colls == old(scene.colls)
    ensures scene.selected == old(scene.selected) && scene.active == old(scene.active)
    ensures (scene.children, ok) == GroupRelinkedLegacy(old(scene.children), k, group)
    ensures ok <==> group !in old(scene.children)[k]
  {
    GroupRelinkedLegacyAgrees(scene.children, k, group);
    if group !in scene.children[k] {
      scene.UnlinkPrefixedChildren(k, LightGroupPrefix);
    }
    ok := scene.LinkCollectionLegacy(k, group, false);
  }

  // ---------------------------------------------------------------------------
  // The property group.

  /** `LVCP_List_Main` (current version). */
  class ListMain {
    var name: string
    /** The instance collection `LVCP_{name}`. */
    var collection: string
    var lightMaster: Option<string>
    var lightGroup: Option<string>
    var activeLight: Option<string>
    var activeLightIndex: int
    /** The light master's `idx` custom property. */
    var masterIdx: int
    /** The `_is_updating` custom property. */
    var isUpdating: bool

    constructor (name: string, collection: string)
      ensures Valid() && this.name == name && this.collection == collection
      ensures lightMaster == None && lightGroup == None && activeLight == None
      ensures activeLightIndex == 0 && masterIdx == 0 && !isUpdating
    {
      this.name := name;
      this.collection := collection;
      lightMaster := None;
      lightGroup := None;
      activeLight := None;
      activeLightIndex := 0;
      masterIdx := 0;
      isUpdating := false;
    }

    /** `active_light_index` stays in its property range. */
    ghost predicate Valid()
      reads this
    {
      0 <= activeLightIndex <= IndexMax
    }

    function State(): LightState
      reads this
    {
      LightState(activeLight, activeLightIndex, masterIdx)
    }

    /** `light_group.objects if light_group else []`, by name. */
    function GroupObjects(scene: Scene): seq<string>
      reads this, scene
    {
      if lightGroup.Some? && Named(lightGroup.value) in scene.colls then scene.colls[Named(lightGroup.value)].objects else []
    }

    /** `update_active_light_index`. */
    method UpdateActiveLightIndex(scene: Scene)
      requires Valid() && Ready(scene)
      modifies this, scene
      decreases if isUpdating then 0 else 1, 1
      ensures Valid() && Ready(scene) && isUpdating == old(isUpdating)
      ensures name == old(name) && collection == old(collection) && lightMaster == old(lightMaster) && lightGroup == old(lightGroup)
      ensures scene.objects == old(scene.objects) && scene.colls == old(scene.colls) && scene.children == old(scene.children)
      ensures old(isUpdating) ==> State() == old(State()) && scene.selected == old(scene.selected) && scene.active == old(scene.active)
      ensures !old(isUpdating) ==> State() == IndexSynced(old(State()), GroupObjects(scene), lightMaster.Some?)
      ensures !old(isUpdating) && GroupObjects(scene) != [] ==> SelectedAlone(scene, activeLight.value)
      ensures !old(isUpdating) && GroupObjects(scene) == [] ==> scene.selected == old(scene.selected) && scene.active == old(scene.active)
    {
      if isUpdating {
        return;
      }
      isUpdating := true;
      var objects := GroupObjects(scene);
      var clamped := ClampedIndex(activeLightIndex, |objects|);
      if lightMaster.Some? {
        masterIdx := clamped;
      }
      if objects != [] && clamped < |objects| {
        SetActiveLight(Some(objects[clamped]), scene);
        scene.SelectObject(objects[clamped]);
      }
      SetActiveLightIndex(clamped, scene);
      isUpdating := false;
    }

    /** `active_light_index = v`: store the clamped value, then run its callback. */
    method SetActiveLightIndex(v: int, scene: Scene)
      requires Valid() && Ready(scene)
      modifies this, scene
      decreases if isUpdating then 0 else 1, 2
      ensures Valid() && Ready(scene) && isUpdating == old(isUpdating)
      ensures name == old(name) && collection == old(collection) && lightMaster == old(lightMaster) && lightGroup == old(lightGroup)
      ensures scene.objects == old(scene.objects) && scene.colls == old(scene.colls) && scene.children == old(scene.children)
      ensures old(isUpdating) ==> State() == old(State()).(index := StoreIndex(v)) && scene.selected == old(scene.selected) && scene.active == old(scene.active)
      ensures !old(isUpdating) ==> State() == IndexSynced(old(State()).(index := StoreIndex(v)), GroupObjects(scene), lightMaster.Some?)
      ensures !old(isUpdating) && GroupObjects(scene) != [] ==> SelectedAlone(scene, activeLight.value)
      ensures !old(isUpdating) && GroupObjects(scene) == [] ==> scene.selected == old(scene.selected) && scene.active == old(scene.active)
    {
      activeLightIndex := StoreIndex(v);
      UpdateActiveLightIndex(scene);
    }

    /** `update_active_light`, with the re-entrancy flag left clear while the index is stored,
        so the index callback keeps the master in step (see `UpdateActiveLightAsWritten`). */
    method UpdateActiveLight(scene: Scene)
      requires Valid() && Ready(scene)
      modifies this, scene
      decreases if isUpdating then 0 else 1, 3
      ensures Valid() && Ready(scene) && isUpdating == old(isUpdating)
      ensures name == old(name) && collection == old(collection) && lightMaster == old(lightMaster) && lightGroup == old(lightGroup)
      ensures scene.objects == old(scene.objects) && scene.colls == old(scene.colls) && scene.children == old(scene.children)
      ensures old(isUpdating) ==> State() == old(State()) && scene.selected == old(scene.selected) && scene.active == old(scene.active)
      ensures !old(isUpdating) ==> State() == LightChosen(old(State()), GroupObjects(scene), lightMaster.Some?)
      ensures !old(isUpdating) && Chosen(old(State()), GroupObjects(scene)) ==> SelectedAlone(scene, activeLight.value)
      ensures !(!old(isUpdating) && Chosen(old(State()), GroupObjects(scene))) ==>
        scene.selected == old(scene.selected) && scene.active == old(scene.active)
    {
      if isUpdating {
        return;
      }
      if activeLight.None? || lightGroup.None? {
        return;
      }
      var i := Find(GroupObjects(scene), activeLight.value);
      if i != -1 {
        SetActiveLightIndex(i, scene);
      }
    }

    /** `active_light = o`: store the pointer, then run its callback. */
    method SetActiveLight(o: Option<string>, scene: Scene)
      requires Valid() && Ready(scene)
      modifies this, scene
      decreases if isUpdating then 0 else 1, 4
      ensures Valid() && Ready(scene) && isUpdating == old(isUpdating)
      ensures name == old(name) && collection == old(collection) && lightMaster == old(lightMaster) && lightGroup == old(lightGroup)
      ensures scene.objects == old(scene.objects) && scene.colls == old(scene.colls) && scene.children == old(scene.children)
      ensures old(isUpdating) ==> State() == old(State()).(activeLight := o) && scene.selected == old(scene.selected) && scene.active == old(scene.active)
      ensures !old(isUpdating) ==> State() == LightChosen(old(State()).(activeLight := o), GroupObjects(scene), lightMaster.Some?)
      ensures !old(isUpdating) && Chosen(old(State()).(activeLight := o), GroupObjects(scene)) ==> SelectedAlone(scene, activeLight.value)
      ensures !(!old(isUpdating) && Chosen(old(State()).(activeLight := o), GroupObjects(scene))) ==>
        scene.selected == old(scene.selected) && scene.active == old(scene.active)
    {
      activeLight := o;
      UpdateActiveLight(scene);
    }

    /** `update_active_light` as written: the flag is set around `active_light_index = idx`, so
        the index callback returns at once and only the stored index changes. */
    method UpdateActiveLightAsWritten(scene: Scene)
      requires Valid() && Ready(scene)
      modifies this, scene
      ensures Valid() && Ready(scene) && isUpdating == old(isUpdating)
      ensures name == old(name) && collection == old(collection) && lightMaster == old(lightMaster) && lightGroup == old(lightGroup)
      ensures scene.objects == old(scene.objects) && scene.colls == old(scene.colls) && scene.children == old(scene.children)
      ensures scene.selected == old(scene.selected) && scene.active == old(scene.active)
      ensures old(isUpdating) ==> State() == old(State())
      ensures !old(isUpdating) ==> State() == LightChosenAsWritten(old(State()), GroupObjects(scene))
    {
      if isUpdating {
        return;
      }
      if activeLight.None? || lightGroup.None? {
        return;
      }
      var i := Find(GroupObjects(scene), activeLight.value);
      if i != -1 {
        isUpdating := true;
        SetActiveLightIndex(i, scene);
        isUpdating := false;
      }
    }

    /** `update_light_group`: read the master from the group; without one, stop. Otherwise
        remove the master's `vecLight` drivers, rebuild them over the group's objects when there
        are any, re-run the index callback, record the master on the instance collection as `LL`
        if it reads `None`, and move the group under the instance collection. */
    method UpdateLightGroup(scene: Scene, anim: AnimData)
      requires Valid() && Ready(scene) && Named(collection) in scene.colls
      modifies this, scene, anim
      ensures Valid() && Ready(scene) && isUpdating == old(isUpdating)
      ensures name == old(name) && collection == old(collection) && lightGroup == old(lightGroup)
      ensures lightMaster == MasterOf(old(scene.colls), lightGroup)
      ensures scene.objects == old(scene.objects) && GroupObjects(scene) == old(GroupObjects(scene))
      ensures lightMaster.None? ==>
        && State() == old(State()) && scene.colls == old(scene.colls) && scene.children == old(scene.children)
        && scene.selected == old(scene.selected) && scene.active == old(scene.active)
        && anim.vecLight == old(anim.vecLight)
      ensures lightMaster.Some? ==>
        && anim.vecLight - {lightMaster.value} == old(anim.vecLight) - {lightMaster.value}
        && (lightMaster.value in anim.vecLight <==> old(GroupObjects(scene)) != [])
      ensures lightMaster.Some? && old(GroupObjects(scene)) != [] ==> DrivesMaster(anim.vecLight[lightMaster.value], old(GroupObjects(scene)))
      ensures lightMaster.Some? && !old(isUpdating) ==> State() == IndexSynced(old(State()), old(GroupObjects(scene)), true)
      ensures lightMaster.Some? && old(isUpdating) ==> State() == old(State())
      ensures lightMaster.Some? && !old(isUpdating) && GroupObjects(scene) != [] ==> SelectedAlone(scene, activeLight.value)
      ensures lightMaster.Some? && (old(isUpdating) || GroupObjects(scene) == []) ==>
        scene.selected == old(scene.selected) && scene.active == old(scene.active)
      ensures lightMaster.Some? ==> scene.colls == WithLL(old(scene.colls), Named(collection), lightMaster.value)
      ensures lightMaster.Some? ==> scene.children == GroupRelinked(old(scene.children), Named(collection), lightGroup.value)
    {
      lightMaster := MasterOf(scene.colls, lightGroup);
      if lightMaster.None? {
        return;
      }
      RebuildMasterDrivers(anim, lightMaster.value, GroupObjects(scene));
      Resync(scene);
    }

    /** The rest of `update_light_group` once the driver is rebuilt: re-run the index callback
        (`active_light_index = active_light_index`), then the collection step. */
    method Resync(scene: Scene)
      requires Valid() && Ready(scene) && Named(collection) in scene.colls && lightMaster.Some?
      requires lightGroup.Some? ==> Named(lightGroup.value) in scene.colls
      modifies this, scene
      ensures Valid() && Ready(scene) && isUpdating == old(isUpdating)
      ensures name == old(name) && collection == old(collection) && lightGroup == old(lightGroup) && lightMaster == old(lightMaster)
      ensures scene.objects == old(scene.objects) && GroupObjects(scene) == old(GroupObjects(scene))
      ensures !old(isUpdating) ==> State() == IndexSynced(old(State()), old(GroupObjects(scene)), true)
      ensures !old(isUpdating) && GroupObjects(scene) != [] ==> SelectedAlone(scene, activeLight.value)
      ensures (old(isUpdating) || GroupObjects(scene) == []) ==> scene.selected == old(scene.selected) && scene.active == old(scene.active)
      ensures old(isUpdating) ==> State() == old(State())
      ensures scene.colls == WithLL(old(scene.colls), Named(collection), lightMaster.value)
      ensures lightGroup.Some? ==> scene.children == GroupRelinked(old(scene.children), Named(collection), lightGroup.value)
    {
      SetActiveLightIndex(activeLightIndex, scene);
      SyncCollections(scene);
    }

    /** The tail of `update_light_group`: `LL` on the instance collection, then the group link. */
    method SyncCollections(scene: Scene)
      requires Ready(scene) && Named(collection) in scene.colls && lightMaster.Some?
      requires lightGroup.Some? ==> Named(lightGroup.value) in scene.colls
      modifies scene
      ensures Ready(scene) && scene.objects == old(scene.objects) && GroupObjects(scene) == old(GroupObjects(scene))
      ensures scene.colls == WithLL(old(scene.colls), Named(collection), lightMaster.value)
      ensures lightGroup.Some? ==> scene.children == GroupRelinked(old(scene.children), Named(collection), lightGroup.value)
      ensures lightGroup.None? ==> scene.children == old(scene.children)
      ensures scene.selected == old(scene.selected) && scene.active == old(scene.active)
    {
      var k := Named(collection);
      var props := scene.colls[k].props;
      if PropL !in props || props[PropL] == NoneValue {
        scene.SetCollectionProp(k, PropL, ObjectRef(lightMaster.value));
      }
      if lightGroup.Some? {
        RelinkGroup(scene, k, lightGroup.value);
      }
    }

    /** `LVCP_OT_AddLightEmpty.execute` (current version) on the active instance: a new empty
        `Light_Direction_{name}_{k}`, k the group's size so far, holding a zero `vecLight` whose
        driver reads the empty's own Z axis; it is linked into the light collection and into
        the group, and `update_light_group` runs again over the grown group. */
    method AddLightEmpty(scene: Scene, lightCollection: string, anim: AnimData) returns (empty: string)
      requires Valid() && Ready(scene) && lightGroup.Some? && lightCollection != lightGroup.value
      requires Named(collection) in scene.colls && Named(lightCollection) in scene.colls && Named(lightGroup.value) in scene.colls
      requires var newName := LightDirectionName(name, |GroupObjects(scene)|);
        && newName !in NamesOf(scene.objects) && newName !in scene.colls[Named(lightCollection)].objects
        && newName !in GroupObjects(scene) && newName !in anim.vecLight
      requires MasterOf(scene.colls, lightGroup).Some? ==> MasterOf(scene.colls, lightGroup).value in NamesOf(scene.objects)
      modifies this, scene, anim
      ensures Valid() && Ready(scene) && name == old(name) && collection == old(collection) && lightGroup == old(lightGroup)
      ensures empty == LightDirectionName(name, |old(GroupObjects(scene))|)
      ensures scene.objects == old(scene.objects) + [Obj(empty, Empty, map[PropLight := ZeroVector], {})]
      ensures lightMaster == MasterOf(old(scene.colls), lightGroup)
      ensures var linked := ObjectLinked(ObjectLinked(old(scene.colls), Named(lightCollection), empty), Named(lightGroup.value), empty);
        scene.colls == if lightMaster.Some? then WithLL(linked, Named(collection), lightMaster.value) else linked
      ensures GroupObjects(scene) == old(GroupObjects(scene)) + [empty]
      ensures empty in anim.vecLight && DrivesOwnAxis(anim.vecLight[empty], empty)
      ensures lightMaster.None? ==>
        && scene.children == old(scene.children) && State() == old(State())
        && anim.vecLight == old(anim.vecLight)[empty := anim.vecLight[empty]]
      ensures lightMaster.Some? ==>
        && scene.children == GroupRelinked(old(scene.children), Named(collection), lightGroup.value)
        && lightMaster.value in anim.vecLight && DrivesMaster(anim.vecLight[lightMaster.value], GroupObjects(scene))
        && anim.vecLight - {lightMaster.value} == (old(anim.vecLight) - {lightMaster.value})[empty := anim.vecLight[empty]]
      ensures lightMaster.Some? && !old(isUpdating) ==> State() == IndexSynced(old(State()), GroupObjects(scene), true)
      ensures lightMaster.Some? && old(isUpdating) ==> State() == old(State())
      ensures lightMaster.Some? && !old(isUpdating) ==> SelectedAlone(scene, activeLight.value)
      ensures !(lightMaster.Some? && !old(isUpdating)) ==> scene.selected == old(scene.selected) && scene.active == old(scene.active)
    {
      ghost var master := MasterOf(scene.colls, lightGroup);
      empty := CreateLightEmpty(scene, lightCollection, anim);
      assert MasterOf(scene.colls, lightGroup) == master;
      assert master.Some? ==> master.value != empty;
      UpdateLightGroup(scene, anim);
      if lightMaster.Some? {
        assert empty in anim.vecLight - {lightMaster.value};
      }
    }

    /** The steps of `LVCP_OT_AddLightEmpty.execute` before `update_light_group`. */
    method CreateLightEmpty(scene: Scene, lightCollection: string, anim: AnimData) returns (empty: string)
      requires Ready(scene) && lightGroup.Some? && lightCollection != lightGroup.value
      requires Named(lightCollection) in scene.colls && Named(lightGroup.value) in scene.colls
      requires var newName := LightDirectionName(name, |GroupObjects(scene)|);
        && newName !in NamesOf(scene.objects) && newName !in scene.colls[Named(lightCollection)].objects
        && newName !in GroupObjects(scene) && newName !in anim.vecLight
      modifies scene, anim
      ensures Ready(scene) && scene.children == old(scene.children)
      ensures scene.selected == old(scene.selected) && scene.active == old(scene.active)
      ensures empty == LightDirectionName(name, |old(GroupObjects(scene))|)
      ensures scene.objects == old(scene.objects) + [Obj(empty, Empty, map[PropLight := ZeroVector], {})]
      ensures scene.colls == ObjectLinked(ObjectLinked(old(scene.colls), Named(lightCollection), empty), Named(lightGroup.value), empty)
      ensures GroupObjects(scene) == old(GroupObjects(scene)) + [empty]
      ensures empty in anim.vecLight && anim.vecLight == old(anim.vecLight)[empty := anim.vecLight[empty]]
      ensures DrivesOwnAxis(anim.vecLight[empty], empty)
    {
      var group := lightGroup.value;
      empty := LightDirectionName(name, |GroupObjects(scene)|);
      scene.AddObject(Obj(empty, Empty, map[PropLight := ZeroVector], {}));
      var ds := anim.DriverAdd(empty);
      SetDrivers(CurveList(ds), "var0", [empty], SingleProp, Loc, MatrixWorld, "[2]", "index", true, true);
      scene.LinkObject(Named(lightCollection), empty);
      scene.LinkObject(Named(group), empty);
    }
  }

  /** `LVCP_List_Main` of the older single-module version (`LVCPSystem/lvcp_system.py`), as far as its `update_light_group` goes. */
  class LegacyListMain {
    var collection: string
    var lightMaster: Option<string>
    var lightGroup: Option<string>
    /** The upper bound `update_light_group` gives the master's `idx` property (the lower one is 0). */
    var idxMax: Option<int>

    constructor (collection: string, lightMaster: Option<string>, lightGroup: Option<string>)
      ensures this.collection == collection && this.lightMaster == lightMaster && this.lightGroup == lightGroup
      ensures idxMax == None
    {
      this.collection := collection;
      this.lightMaster := lightMaster;
      this.lightGroup := lightGroup;
      idxMax := None;
    }

    /** The older `update_light_group`: nothing without a master; otherwise remove the master's
        `vecLight` drivers and rebuild them over the group, bound `idx` to [0, n-1], unlink the
        `LightGroup_` children when the group is not yet a child, and link the group with the
        older `link_collection`. `ok` is false where Python raises: no group (after the drivers
        were removed), or a group that already was a child. */
    method UpdateLightGroup(scene: Scene, anim: AnimData) returns (ok: bool)
      requires Ready(scene) && Named(collection) in scene.colls
      requires lightGroup.Some? ==> Named(lightGroup.value) in scene.colls
      modifies this, scene, anim
      ensures collection == old(collection) && lightMaster == old(lightMaster) && lightGroup == old(lightGroup)
      ensures Ready(scene) && scene.objects == old(scene.objects) && scene.colls == old(scene.colls)
      ensures scene.selected == old(scene.selected) && scene.active == old(scene.active)
      ensures lightMaster.None? ==>
        ok && idxMax == old(idxMax) && scene.children == old(scene.children) && anim.vecLight == old(anim.vecLight)
      ensures lightMaster.Some? ==> anim.vecLight - {lightMaster.value} == old(anim.vecLight) - {lightMaster.value}
      ensures lightMaster.Some? && lightGroup.None? ==>
        !ok && lightMaster.value !in anim.vecLight && idxMax == old(idxMax) && scene.children == old(scene.children)
      ensures lightMaster.Some? && lightGroup.Some? ==>
        var objects := scene.colls[Named(lightGroup.value)].objects;
        && lightMaster.value in anim.vecLight && DrivesMaster(anim.vecLight[lightMaster.value], objects)
        && idxMax == Some(|objects| - 1)
        && (scene.children, ok) == GroupRelinkedLegacy(old(scene.children), Named(collection), lightGroup.value)
        && (ok <==> lightGroup.value !in old(scene.children)[Named(collection)])
    {
      if lightMaster.None? {
        return true;
      }
      anim.DriverRemove(lightMaster.value);
      if lightGroup.None? {
        return false;
      }
      var group := lightGroup.value;
      var objects := scene.colls[Named(group)].objects;
      var ds := anim.DriverAdd(lightMaster.value);
      DriveMaster(ds, objects, false);
      idxMax := Some(|objects| - 1);
      ok := RelinkGroupLegacy(scene, Named(collection), group);
    }
  }
}
