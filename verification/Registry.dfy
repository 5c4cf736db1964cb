/** The registry of LVCP instances kept on the scene: a list of entries, each naming an instance
    and pointing at its collection, with the index of the active entry (`idx`), plus the main
    "LVCP" and "Lights" collections and the light groups. Three versions of the add-on keep the
    cursor differently; the current one keeps `idx` on an entry whenever the list is not empty. */
module Registry {
  import opened Wrappers
  import opened Seqs
  import opened Text
  import opened Naming
  import opened SceneModel

  /** One instance: its display name and its collection (`LVCP_List_Main.name` / `.collection`). */
  datatype Entry = Entry(name: string, collection: Option<string>)

  /** A freshly added list item, before the caller fills it in. */
  const BlankEntry := Entry("", None)

  /** Blender's collection subscript: a negative index counts from the end; anything else outside
      the list raises IndexError. */
  function ActiveIndex(n: nat, idx: int): (r: Option<nat>)
    ensures r.Some? <==> -(n as int) <= idx < n
    ensures r.Some? ==> r.value < n && (r.value == idx || r.value == idx + n)
  {
    if 0 <= idx < n then Some(idx) else if -(n as int) <= idx < 0 then Some(idx + n) else None
  }

  /** The `list` accessor: the active entry, or None when the subscript raises. */
  function ActiveEntry(lists: seq<Entry>, idx: int): Option<Entry>
  {
    match ActiveIndex(|lists|, idx)
    case Some(k) => Some(lists[k])
    case None => None
  }

  /** The older accessors `collection` and `name`: None when there is no active entry. */
  function ActiveCollection(lists: seq<Entry>, idx: int): (r: Option<string>)
    ensures ActiveEntry(lists, idx).None? ==> r.None?
  {
    match ActiveEntry(lists, idx)
    case Some(e) => e.collection
    case None => None
  }

  function ActiveName(lists: seq<Entry>, idx: int): (r: Option<string>)
    ensures r.None? <==> ActiveEntry(lists, idx).None?
  {
    match ActiveEntry(lists, idx)
    case Some(e) => Some(e.name)
    case None => None
  }

  /** `list` yields `lists[idx]` for a valid index, `lists[|lists| + idx]` for a negative one
      within range, and None past the end. */
  lemma ActiveEntryCases(lists: seq<Entry>, idx: int)
    ensures 0 <= idx < |lists| ==> ActiveEntry(lists, idx) == Some(lists[idx])
    ensures -|lists| <= idx < 0 ==> ActiveEntry(lists, idx) == Some(lists[|lists| + idx])
    ensures idx >= |lists| || idx < -|lists| ==> ActiveEntry(lists, idx).None?
    ensures ActiveName(lists, idx).Some? ==> ActiveName(lists, idx).value == ActiveEntry(lists, idx).value.name
    ensures ActiveEntry(lists, idx).Some? ==> ActiveCollection(lists, idx) == ActiveEntry(lists, idx).value.collection
  {
  }

  /** The cursor rule the current version keeps: an empty list has `idx` 0 (the default) or -1
      (after removing the last entry); otherwise `idx` is on an entry. */
  predicate CursorOk(lists: seq<Entry>, idx: int)
  {
    if |lists| == 0 then -1 <= idx <= 0 else 0 <= idx < |lists|
  }

  /** Under the cursor rule, there is an active entry exactly when the list is not empty, and it
      is `lists[idx]`. */
  lemma CursorOkActive(lists: seq<Entry>, idx: int)
    requires CursorOk(lists, idx)
    ensures ActiveEntry(lists, idx).Some? <==> |lists| > 0
    ensures |lists| > 0 ==> ActiveEntry(lists, idx) == Some(lists[idx])
  {
  }

  /** The entry list after the older `remove_list` (`lists.remove(idx)`): the entry at `idx`
      removed, with `idx` left as it was. */
  function RemovedLegacy(lists: seq<Entry>, idx: int): seq<Entry>
    requires 0 <= idx < |lists|
  {
    RemoveAt(lists, idx)
  }

  /** In the older versions, removing the last entry leaves `idx` past the end, so `list` is None
      although entries may remain. */
  lemma RemoveLastLegacyLosesCursor(lists: seq<Entry>)
    requires |lists| > 0
    ensures ActiveEntry(RemovedLegacy(lists, |lists| - 1), |lists| - 1).None?
  {
  }

  /** Which properties a collection must carry to be restored: "LL" and "OO" in the older single-module
      version, "LL", "FF", "OO" and "UU" in the oldest one. */
  const RestoreKeys := [PropL, PropO]
  const RestoreKeysOldest := [PropL, PropF, PropO, PropU]

  /** `collection.get(k)` is truthy for every required key. */
  predicate Restorable(props: map<string, Value>, required: seq<string>)
  {
    forall j :: 0 <= j < |required| ==> required[j] in props && Truthy(props[required[j]])
  }

  /** Restore as the older versions write it: `add_list()` (which leaves `idx` alone), then the
      name and collection are written through `lvcp.list`, the ACTIVE entry. The flag is false where
      Python raises: a missing collection, or no active entry after the append. */
  function RestoredAsWritten(lists: seq<Entry>, idx: int, coll: Option<Coll>, collName: string,
                             required: seq<string>): (seq<Entry>, bool)
  {
    match coll
    case None => (lists, false)
    case Some(c) =>
      if !Restorable(c.props, required) then (lists, true)
      else
        var grown := lists + [BlankEntry];
        match ActiveIndex(|grown|, idx)
        case None => (grown, false)
        case Some(k) => (grown[k := Entry(RestoredEntryName(collName), Some(collName))], true)
  }

  /** The intended restore: a new entry for the collection, appended and made active; a missing
      collection is reported and changes nothing. */
  function Restored(lists: seq<Entry>, idx: int, coll: Option<Coll>, collName: string,
                    required: seq<string>): (r: (seq<Entry>, int, bool))
    ensures r.2 <==> coll.Some?
    ensures coll.Some? && Restorable(coll.value.props, required) ==>
      && r.0 == lists + [Entry(RestoredEntryName(collName), Some(collName))]
      && ActiveEntry(r.0, r.1) == Some(Entry(RestoredEntryName(collName), Some(collName)))
    ensures !(coll.Some? && Restorable(coll.value.props, required)) ==> r.0 == lists && r.1 == idx
  {
    match coll
    case None => (lists, idx, false)
    case Some(c) =>
      if !Restorable(c.props, required) then (lists, idx, true)
      else (lists + [Entry(RestoredEntryName(collName), Some(collName))], |lists|, true)
  }

  /** The written restore loses an existing instance: with one entry `A` active, restoring
      `LVCP_B` renames `A` into `B` and leaves a blank entry behind. */
  lemma RestoreOverwritesActive()
    ensures var a := Entry("A", Some("LVCP_A"));
      var props := map[PropL := ObjectRef("L"), PropO := ObjectRef("O")];
      var written := RestoredAsWritten([a], 0, Some(Coll([], props)), "LVCP_B", RestoreKeys).0;
      && written == [Entry("B", Some("LVCP_B")), BlankEntry]
      && a !in written
      && Restored([a], 0, Some(Coll([], props)), "LVCP_B", RestoreKeys).0 == [a, Entry("B", Some("LVCP_B"))]
  {
    RestoredEntryNameInverse("B");
    assert InstanceCollectionName("B") == "LVCP_B";
  }

  /** The intended restore keeps every existing entry. */
  lemma RestoredKeepsEntries(lists: seq<Entry>, idx: int, coll: Option<Coll>, collName: string, required: seq<string>)
    ensures var r := Restored(lists, idx, coll, collName, required).0;
      |r| >= |lists| && r[..|lists|] == lists
  {
    var r := Restored(lists, idx, coll, collName, required).0;
    assert r == lists || r == lists + [Entry(RestoredEntryName(collName), Some(collName))];
    assert (lists + [Entry(RestoredEntryName(collName), Some(collName))])[..|lists|] == lists;
  }

  /** A collection `LVCP_{base}` restores under its base name when the base does not itself contain `LVCP_`. */
  lemma RestoredName(base: string, lists: seq<Entry>, idx: int, c: Coll, required: seq<string>)
    requires !Occurs(InstancePrefix, base) && Restorable(c.props, required)
    ensures Restored(lists, idx, Some(c), InstanceCollectionName(base), required).0[|lists|].name == base
  {
    RestoredEntryNameInverse(base);
  }

  /** Every entry that points at a collection points at one of the scene (a pointer property
      never holds a deleted data-block). */
  predicate EntriesPointInScene(lists: seq<Entry>, colls: map<CollKey, Coll>)
  {
    forall j :: 0 <= j < |lists| && lists[j].collection.Some? ==> Named(lists[j].collection.value) in colls
  }

  /** The collections of the entries, `None` for an entry without one. */
  function EntryCollectionOptions(lists: seq<Entry>): (r: seq<Option<string>>)
    ensures |r| == |lists| && forall i :: 0 <= i < |lists| ==> r[i] == lists[i].collection
  {
    seq(|lists|, i requires 0 <= i < |lists| => lists[i].collection)
  }

  /** The collections a loop `for c in opts: ... c.name ...` handles before the first None
      raises `AttributeError`: the longest prefix without None, unwrapped. */
  function SomePrefix(opts: seq<Option<string>>): (r: seq<string>)
    ensures |r| <= |opts|
    ensures forall j :: 0 <= j < |r| ==> opts[j] == Some(r[j])
    ensures |r| < |opts| ==> opts[|r|].None?
  {
    if opts == [] || opts[0].None? then []
    else
      var t := SomePrefix(opts[1..]);
      assert forall j :: 1 <= j <= |t| ==> opts[j] == opts[1..][j - 1];
      [opts[0].value] + t
  }

  /** The hierarchy after `ensure_initial_collections`: "LVCP" (named `lvcpName` by the host)
      created under the scene root when missing, then "Lights" (named `lightsName`) created and
      moved under it when missing. */
  function InitialHierarchy(h: Hierarchy, lvcp: Option<string>, light: Option<string>,
                            lvcpName: string, lightsName: string): (r: Hierarchy)
    requires SceneRoot in h && (lvcp.Some? ==> Named(lvcp.value) in h)
    ensures SceneRoot in r && Named(if lvcp.Some? then lvcp.value else lvcpName) in r
  {
    var h1 := if lvcp.None? then Created(h, lvcpName) else h;
    var main := if lvcp.Some? then lvcp.value else lvcpName;
    if light.None? then LinkResult(Created(h1, lightsName), Named(main), lightsName, true) else h1
  }

  /** With both collections present nothing changes. Otherwise a new "LVCP" is appended to the
      scene root, a new "Lights" ends up under "LVCP" and nowhere else, and every other
      collection keeps its children. */
  lemma InitialHierarchyPlaces(h: Hierarchy, lvcp: Option<string>, light: Option<string>,
                               lvcpName: string, lightsName: string)
    requires WellLinked(h) && (lvcp.Some? ==> Named(lvcp.value) in h)
    requires Named(lvcpName) !in h && Named(lightsName) !in h && lvcpName != lightsName
    ensures var r := InitialHierarchy(h, lvcp, light, lvcpName, lightsName);
      var main := Named(if lvcp.Some? then lvcp.value else lvcpName);
      && (lvcp.Some? && light.Some? ==> r == h)
      && r[SceneRoot] == h[SceneRoot] + (if lvcp.None? then [lvcpName] else [])
      && (light.None? ==> lightsName in r[main])
      && (forall k :: k in h && k != SceneRoot && k != main ==> r[k] == h[k])
  {
    var root := h[SceneRoot];
    assert ChildrenOk(h, root);
    assert lvcpName !in root && lightsName !in root;
    if light.None? {
      var h1 := if lvcp.None? then Created(h, lvcpName) else h;
      var pre := root + (if lvcp.None? then [lvcpName] else []);
      assert h1[SceneRoot] == pre && lightsName !in pre;
      WithoutSplice(pre, lightsName, []);
      assert pre + [lightsName] + [] == pre + [lightsName] && pre + [] == pre;
    }
  }

  class Lvcp {
    var lists: seq<Entry>
    var idx: int
    var lvcpCollection: Option<string>
    var lightCollection: Option<string>
    /** `light_group`: each item points at a `LightGroup_{k}` collection. */
    var lightGroups: seq<Option<string>>

    constructor ()
      ensures lists == [] && idx == 0 && lvcpCollection == None && lightCollection == None && lightGroups == []
    {
      lists := [];
      idx := 0;
      lvcpCollection := None;
      lightCollection := None;
      lightGroups := [];
    }

    /** The `list` property. */
    function List(): (r: Option<Entry>)
      reads this
      ensures CursorOk(lists, idx) ==> (r.Some? <==> |lists| > 0)
    {
      if CursorOk(lists, idx) then CursorOkActive(lists, idx); ActiveEntry(lists, idx)
      else ActiveEntry(lists, idx)
    }

    /** `add_list` (current): point `idx` at the old length, then append; `item` is what the caller
        writes into the returned entry. */
    method AddList(item: Entry)
      modifies this
      ensures lists == old(lists) + [item] && idx == |old(lists)|
      ensures CursorOk(lists, idx) && List() == Some(item)
      ensures lvcpCollection == old(lvcpCollection) && lightCollection == old(lightCollection)
      ensures lightGroups == old(lightGroups)
    {
      idx := |lists|;
      lists := lists + [item];
    }

    /** `remove_list` (current): on a non-empty list, remove the entry at `idx` and pull `idx` back
        onto the last entry when it falls off the end. `ok` is false where `remove` raises (an
        index outside the list, which the cursor rule excludes). */
    method RemoveList() returns (ok: bool)
      modifies this
      ensures old(|lists|) == 0 ==> ok && lists == old(lists) && idx == old(idx)
      ensures old(|lists|) > 0 && !(0 <= old(idx) < old(|lists|)) ==> !ok && lists == old(lists) && idx == old(idx)
      ensures old(|lists|) > 0 && 0 <= old(idx) < old(|lists|) ==>
        && ok && lists == RemoveAt(old(lists), old(idx))
        && idx == (if old(idx) >= |lists| then |lists| - 1 else old(idx))
      ensures old(CursorOk(lists, idx)) ==> ok && CursorOk(lists, idx)
      ensures lvcpCollection == old(lvcpCollection) && lightCollection == old(lightCollection)
      ensures lightGroups == old(lightGroups)
    {
      ok := true;
      if |lists| > 0 {
        if !(0 <= idx < |lists|) {
          return false;
        }
        lists := RemoveAt(lists, idx);
        if idx >= |lists| {
          idx := |lists| - 1;
        }
      }
    }

    /** `add_list` (older versions): append only; `idx` stays where it was. */
    method AddListLegacy(item: Entry)
      modifies this
      ensures lists == old(lists) + [item] && idx == old(idx)
      ensures lvcpCollection == old(lvcpCollection) && lightCollection == old(lightCollection)
      ensures lightGroups == old(lightGroups)
    {
      lists := lists + [item];
    }

    /** `remove_list` (older versions): `lists.remove(idx)` with no cursor adjustment; `ok` is false
        where `remove` raises (an empty list or an index outside it). */
    method RemoveListLegacy() returns (ok: bool)
      modifies this
      ensures ok <==> 0 <= old(idx) < old(|lists|)
      ensures ok ==> lists == RemovedLegacy(old(lists), old(idx))
      ensures !ok ==> lists == old(lists)
      ensures idx == old(idx)
      ensures lvcpCollection == old(lvcpCollection) && lightCollection == old(lightCollection)
      ensures lightGroups == old(lightGroups)
    {
      if !(0 <= idx < |lists|) {
        return false;
      }
      lists := RemoveAt(lists, idx);
      ok := true;
    }

    /** The cursor update at the end of `add_prop_and_empty` (both older versions): append, then
        `idx = len(lists) - 1`, then fill in the new entry. */
    method AddPropAndEmptyEntry(name: string, coll: string)
      modifies this
      ensures lists == old(lists) + [Entry(name, Some(coll))] && idx == |lists| - 1
      ensures CursorOk(lists, idx) && List() == Some(Entry(name, Some(coll)))
      ensures lvcpCollection == old(lvcpCollection) && lightCollection == old(lightCollection)
      ensures lightGroups == old(lightGroups)
    {
      AddListLegacy(BlankEntry);
      idx := |lists| - 1;
      lists := lists[idx := Entry(name, Some(coll))];
    }

    /** `LVCP_OT_RestoreCollection._restore_collection`, with the entry written as intended (see
        `RestoredAsWritten` for the code as it stands). `ok` is false for a missing collection. */
    method RestoreCollection(scene: Scene, collName: string, required: seq<string>) returns (ok: bool)
      modifies this
      ensures var coll := if Named(collName) in scene.colls then Some(scene.colls[Named(collName)]) else None;
        (lists, idx, ok) == Restored(old(lists), old(idx), coll, collName, required)
      ensures lvcpCollection == old(lvcpCollection) && lightCollection == old(lightCollection)
      ensures lightGroups == old(lightGroups)
    {
      if Named(collName) !in scene.colls {
        return false;
      }
      ok := true;
      var props := scene.colls[Named(collName)].props;
      var j := 0;
      var all := true;
      while j < |required| && all
        invariant 0 <= j <= |required|
        invariant all <==> forall t :: 0 <= t < j ==> required[t] in props && Truthy(props[required[t]])
      {
        all := required[j] in props && Truthy(props[required[j]]);
        j := j + 1;
      }
      if all {
        AddPropAndEmptyEntry(RestoredEntryName(collName), collName);
      }
    }

    /** `ensure_initial_collections`: create the "LVCP" collection if there is none, then the
        "Lights" collection, moved from the scene root under "LVCP". `lvcpName` and `lightsName`
        are the names the host gives the new collections. */
    method EnsureInitialCollections(scene: Scene, lvcpName: string, lightsName: string) returns (created: bool)
      requires scene.Valid() && lvcpName != lightsName
      requires Named(lvcpName) !in scene.colls && Named(lightsName) !in scene.colls
      requires lvcpCollection.Some? ==> Named(lvcpCollection.value) in scene.colls
      requires lightCollection.Some? ==> Named(lightCollection.value) in scene.colls
      modifies this, scene
      ensures scene.Valid() && scene.objects == old(scene.objects)
      ensures scene.selected == old(scene.selected) && scene.active == old(scene.active)
      ensures created <==> old(lvcpCollection).None? || old(lightCollection).None?
      ensures lvcpCollection == if old(lvcpCollection).Some? then old(lvcpCollection) else Some(lvcpName)
      ensures lightCollection == if old(lightCollection).Some? then old(lightCollection) else Some(lightsName)
      ensures var c1 := if old(lvcpCollection).None? then old(scene.colls)[Named(lvcpName) := Coll([], map[])] else old(scene.colls);
        scene.colls == if old(lightCollection).None? then c1[Named(lightsName) := Coll([], map[])] else c1
      ensures scene.children == InitialHierarchy(old(scene.children), old(lvcpCollection), old(lightCollection), lvcpName, lightsName)
      ensures lists == old(lists) && idx == old(idx) && lightGroups == old(lightGroups)
    {
      created := false;
      if lvcpCollection.None? {
        scene.CreateCollection(lvcpName);
        lvcpCollection := Some(lvcpName);
        created := true;
      }
      if lightCollection.None? {
        scene.CreateUnder(Named(lvcpCollection.value), lightsName);
        lightCollection := Some(lightsName);
        created := true;
      }
    }

    /** The collections the managers move under "LVCP": each entry's collection, then the light
        collection (which the current version skips when it is None). */
    function Managed(skipMissingLight: bool): (r: seq<Option<string>>)
      reads this
      ensures |r| >= |lists| && forall j :: 0 <= j < |lists| ==> r[j] == lists[j].collection
    {
      EntryCollectionOptions(lists) + if skipMissingLight && lightCollection.None? then [] else [lightCollection]
    }

    /** `LVCP_OT_CollectionManager.execute` (current): cancelled without an "LVCP" collection;
        otherwise every instance collection, then the light collection, is moved under it from
        the scene root, until an entry without a collection raises. `ok` is false when cancelled
        or raised. */
    method CollectionManager(scene: Scene) returns (ok: bool)
      requires scene.Valid() && EntriesPointInScene(lists, scene.colls)
      requires lvcpCollection.Some? ==> Named(lvcpCollection.value) in scene.colls
      requires lightCollection.Some? ==> Named(lightCollection.value) in scene.colls
      modifies scene
      ensures scene.Valid() && scene.objects == old(scene.objects) && scene.colls == old(scene.colls)
      ensures scene.selected == old(scene.selected) && scene.active == old(scene.active)
      ensures lvcpCollection.None? ==> !ok && scene.children == old(scene.children)
      ensures lvcpCollection.Some? ==>
        && scene.children == LinkAll(old(scene.children), Named(lvcpCollection.value), SomePrefix(Managed(true)), 0)
        && (ok <==> |SomePrefix(Managed(true))| == |Managed(true)|)
      ensures lvcpCollection.Some? ==> forall c :: c in old(scene.children)[Named(lvcpCollection.value)] ==>
        c in scene.children[Named(lvcpCollection.value)]
      ensures lvcpCollection.Some? ==> forall j :: 0 <= j < |SomePrefix(Managed(true))| ==>
        SomePrefix(Managed(true))[j] in scene.children[Named(lvcpCollection.value)] &&
        SomePrefix(Managed(true))[j] !in scene.children[SceneRoot]
      ensures ok ==> forall j :: 0 <= j < |lists| ==>
        lists[j].collection.Some? &&
        lists[j].collection.value in scene.children[Named(lvcpCollection.value)] &&
        lists[j].collection.value !in scene.children[SceneRoot]
      ensures ok && lightCollection.Some? ==>
        lightCollection.value in scene.children[Named(lvcpCollection.value)] &&
        lightCollection.value !in scene.children[SceneRoot]
    {
      if lvcpCollection.None? {
        return false;
      }
      var target := Named(lvcpCollection.value);
      var names := Managed(true);
      var linked := SomePrefix(names);
      scene.LinkEach(target, linked);
      LinkAllPlaces(old(scene.children), target, linked, 0);
      ok := |linked| == |names|;
      if ok && lightCollection.Some? {
        assert linked[|lists|] == lightCollection.value;
      }
    }

    /** `_collection_manager` (both older versions): create "LVCP" (named `lvcpName` by the host)
        when missing, then link each instance collection and the light collection under it unless
        a child of that name is there. `ok` is false where Python raises and the run stops: a link
        Blender refuses, or an entry or light collection that is None. */
    method CollectionManagerLegacy(scene: Scene, lvcpName: string, unlink: bool) returns (ok: bool)
      requires scene.Valid() && EntriesPointInScene(lists, scene.colls)
      requires lvcpCollection.Some? ==> Named(lvcpCollection.value) in scene.colls
      requires lvcpCollection.None? ==> Named(lvcpName) !in scene.colls
      requires lightCollection.Some? ==> Named(lightCollection.value) in scene.colls
      modifies this, scene
      ensures lists == old(lists) && idx == old(idx) && lightCollection == old(lightCollection) && lightGroups == old(lightGroups)
      ensures scene.Valid() && scene.objects == old(scene.objects)
      ensures scene.selected == old(scene.selected) && scene.active == old(scene.active)
      ensures lvcpCollection == if old(lvcpCollection).Some? then old(lvcpCollection) else Some(lvcpName)
      ensures scene.colls == if old(lvcpCollection).Some? then old(scene.colls) else old(scene.colls)[Named(lvcpName) := Coll([], map[])]
      ensures var h := if old(lvcpCollection).Some? then old(scene.children) else Created(old(scene.children), lvcpName);
        var m := Manage(h, Named(lvcpCollection.value), SomePrefix(Managed(false)), 0, unlink);
        && scene.children == m.0
        && (ok <==> m.1 && |SomePrefix(Managed(false))| == |Managed(false)|)
    {
      var names := Managed(false);
      var linked := SomePrefix(names);
      if lvcpCollection.None? {
        scene.CreateCollection(lvcpName);
        lvcpCollection := Some(lvcpName);
      }
      ok := scene.ManageEach(Named(lvcpCollection.value), linked, unlink);
      ok := ok && |linked| == |names|;
    }

    /** `LVCP_OT_AddLightGroup.execute` (older single-module version), up to handing the group to the
        active instance: the new collection `LightGroup_{k}` (k the number of light groups so far)
        is moved from the scene root under the light collection, recorded as a light group, and
        linked under the active instance's collection. `ok` is false where Python raises (no
        active entry, an active entry without collection, or a link Blender refuses). */
    method AddLightGroup(scene: Scene) returns (name: string, ok: bool)
      requires scene.Valid()
      requires ActiveCollection(lists, idx).Some? ==> Named(ActiveCollection(lists, idx).value) in scene.colls
      requires lightCollection.Some? && Named(lightCollection.value) in scene.colls
      requires Named(LightGroupName(|lightGroups|)) !in scene.colls
      modifies this, scene
      ensures lists == old(lists) && idx == old(idx) && lvcpCollection == old(lvcpCollection) && lightCollection == old(lightCollection)
      ensures scene.Valid() && scene.objects == old(scene.objects) && scene.colls == old(scene.colls)[Named(name) := Coll([], map[])]
      ensures scene.selected == old(scene.selected) && scene.active == old(scene.active)
      ensures name == LightGroupName(|old(lightGroups)|) && LightGroupPrefix <= name
      ensures lightGroups == old(lightGroups) + [Some(name)]
      ensures name in scene.children[Named(lightCollection.value)] && name !in scene.children[SceneRoot]
      ensures ok <==> ActiveCollection(lists, idx).Some? && ActiveCollection(lists, idx).value != lightCollection.value
      ensures ok ==> name in scene.children[Named(ActiveCollection(lists, idx).value)]
    {
      var k := |lightGroups|;
      name := LightGroupName(k);
      LightGroupNameProperties(k, k);
      scene.CreateUnderLegacy(Named(lightCollection.value), name);
      lightGroups := lightGroups + [Some(name)];
      var owner := ActiveCollection(lists, idx);
      if owner.None? {
        return name, false;
      }
      if owner.value == lightCollection.value {
        // Already a child of the light collection: Blender refuses the second link.
        return name, false;
      }
      ok := scene.LinkCollectionLegacy(Named(owner.value), name, false);
    }
  }
}
