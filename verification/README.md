# LVCP System — a Dafny model

LVCP ("light vector control point") is a Blender add-on that drives a stylised-lighting light
vector from a set of "light empties". It keeps a registry of LVCP instances (one collection
`LVCP_{name}` per character), links the character's meshes to an instance by tagging them with
a custom `lvcp` property, builds drivers whose expression `lvcp_driver_func(self["idx"],[var0,…])`
picks one light out of the instance's light group, and keeps the group's active light, its
index slider and the light master's `idx` property in step. Three generations of the add-on
coexist in the repository: the current split-module version (`utils.py`, `properties.py`,
`operators.py`), an older single-module version (`LVCPSystem/lvcp_system.py`) and the oldest
one (`LVCPSystem.py`).

The model states that logic without Blender:

- `Naming` — the armature pattern `^(Art|Avatar)_[a-zA-Z]+(?:_\d{2})?$` as a parser with its
  inverse, the base name, mesh base names, variable names, the light argument list, driver data
  paths and the names of instance collections, light groups and light empties.
- `DriverFunc` — both versions of `lvcp_driver_func`.
- `SceneModel` — objects (name, type, custom properties, bones), collections (objects and
  custom properties) and the collection hierarchy as values, and a `Scene` class whose methods
  are the scene edits the add-on performs: creating and linking collections (both versions of
  `link_collection`), unlinking `LightGroup_` children, linking objects, selecting, and the
  `LinkObjects` / `UnlinkObjects` tagging loops.
- `Drivers` — a `Driver` class, `set_drivers` in its three versions (clearing or keeping old
  variables, setting `use_self` or not), and the `vecLight` drivers of each object with
  `driver_add` and `driver_remove`.
- `Registry` — the `LVCP` property group as a class: `lists`, the cursor `idx`, the `list`
  accessor, `add_list` / `remove_list` in their current and older forms, restore,
  `ensure_initial_collections`, the collection managers and `AddLightGroup`.
- `LightSync` — `LVCP_List_Main` as a class: the `_is_updating` guard between
  `update_active_light` and `update_active_light_index`, the clamp to the group size and to the
  slider's hard range, `update_light_group`, and adding a light empty.
- `Operators` — the decisions of auto-setup (which armature, whether an instance exists, which
  meshes are linked), and `CreateInstance` up to registering the new instance.
- `Seqs`, `Text`, `Wrappers` — sequence filters and search, `str.join`/`str.split`, decimal
  text and `str.replace`, and `Option`.

Blender property semantics the model relies on are written out: an `IntProperty` with
`min=0, max=3` clamps every assignment; an update callback runs on every assignment; a
collection subscript with a negative index counts from the end; `children.link` raises on a
child that is already linked (a link that would close a cycle is not modelled, see below) and
`children.unlink` on one that is missing (modelled as a
`false` result).

## Model

| member | source | states |
|---|---|---|
| Naming.ParseCompose | utils.py:52-55 | every well-formed `Art_`/`Avatar_` name with a letter run and optional two-digit serial matches the pattern, parses back to its parts, and its base name is the letter run |
| Naming.ComposeParse | utils.py:43-46 | every name the pattern accepts is well formed and is exactly prefix, `_`, letter run and optional `_dd` |
| Naming.ParseTailSound | utils.py:43 | the letter run and serial the parser returns reassemble the text after the prefix |
| Naming.BaseNameOfNonMatching | utils.py:55 | a name the pattern rejects is returned unchanged |
| Naming.BaseNameExamples | utils.py:52-55 | `Avatar_Kafka_01` gives `Kafka`, `Art_X` gives `X` |
| Naming.MeshBaseName | operators.py:242 | the base of a mesh name contains no `.` |
| Naming.MeshBaseNameSuffix | operators.py:242 | a `.suffix` does not change the base name, and a dot-free name is its own base |
| Naming.VarNameInjective | utils.py:164 | different positions get different `var{i}` names |
| Naming.VarNames | properties.py:124 | `n` names, `var0..var{n-1}` in order |
| Naming.LightsArgStringSplits | properties.py:122-124 | the light argument list is empty for no lights and otherwise splits on `,` back into `var0..var{n-1}` |
| Naming.DataPathExamples | properties.py:38-47 | the master's variables read `["vecLight"][i]`, the empties' read `matrix_world[2][i]` |
| Naming.DataPathInjective | utils.py:166-170 | when a path part is `index`, different driver components read different data paths |
| Naming.RestoredEntryNameInverse | LVCPSystem/lvcp_system.py:629 | restoring collection `LVCP_{base}` names the entry `base` when `base` holds no `LVCP_` |
| Naming.LightGroupNameProperties | LVCPSystem/lvcp_system.py:721-722 | `LightGroup_{k}` carries the prefix `update_light_group` unlinks, and different k give different names |
| Naming.LightDirectionNameInjective | operators.py:526-527 | empties added at different group sizes get different names |
| DriverFunc.LvcpDriverFunc | utils.py:199-210 | `values[idx]` in range; the default vector (0,0,1) for no values or for an out-of-range index over vectors; 0.0 otherwise |
| DriverFunc.LvcpDriverFuncLegacy | LVCPSystem/lvcp_system.py:329-332 | `values[idx]` in range, the integer 0 otherwise |
| DriverFunc.VersionsAgreeInRange | utils.py:199-210 | under Python's `==` (where `0.0 == 0`) the two versions agree exactly when the index is in range or the values are not vectors; out of range the current version gives the default vector (or 0.0 over non-vectors) and the older one the integer 0 (LVCPSystem/lvcp_system.py:329-332) |
| DriverFunc.VectorsYieldVector | utils.py:199-210 | over a list holding only vectors the current version always yields a vector, whatever the index |
| Drivers.ComponentVariable | utils.py:162-174 | variable `idx` is named `var{idx}`, has the driver type and reads object `v` |
| Drivers.ComponentVariables | utils.py:162-174 | one variable per object of `obs` |
| Drivers.ComponentVariablesNamed | utils.py:162-165 | a component's variables are `var0..var{n-1}` in `obs` order, pairwise distinct, reading `obs[k]` through the component's data path or `LOC_X/_Y/_Z` transform |
| Drivers.ExpressionArgumentsDefined | properties.py:36-47 | the master expression's argument list names exactly the variables each driver defines |
| Drivers.ComponentsReadDistinctPaths | utils.py:166-170 | two components of one object read different data paths |
| Drivers.Driver.ClearVariables | utils.py:158-160 | all variables are removed, nothing else changes |
| Drivers.Driver.AddVariables | utils.py:162-174 | the component's variables are appended after the existing ones |
| Drivers.Driver.Configure | utils.py:155-174 | the expression is set, `use_self` set when asked, and the variables are the component's (after the old ones when not cleared) |
| Drivers.SetDrivers | utils.py:146-175 | every driver of a list result gets the expression and exactly its component's variables; the current version clears old variables and sets `use_self`, the older one (LVCPSystem/lvcp_system.py:208-229) sets `use_self` and appends, the oldest (LVCPSystem.py:200-219) only appends |
| Drivers.AnimData.DriverRemove | utils.py:177-182 | the object's `vecLight` drivers are gone, and no other object's drivers change |
| Drivers.AnimData.DriverAdd | utils.py:148 | a property without drivers gets three new, distinct, empty drivers; existing drivers are returned unchanged |
| Registry.ActiveIndex | properties.py:170-174 | the subscript is valid exactly for `-n <= idx < n`, counting negative indices from the end |
| Registry.ActiveEntryCases | properties.py:170-174 | `list` is `lists[idx]` for a valid index, `lists[n+idx]` for a negative one, None past either end |
| Registry.ActiveName | LVCPSystem.py:712-724 | `name`/`collection` are None exactly when there is no active entry |
| Registry.ActiveCollection | LVCPSystem.py:712-717 | no active entry gives None |
| Registry.CursorOkActive | properties.py:176-184 | under the current cursor rule there is an active entry exactly when the list is non-empty, and it is `lists[idx]` |
| Registry.RemoveLastLegacyLosesCursor | LVCPSystem/lvcp_system.py:115-116 | removing the last entry in the older versions leaves `idx` past the end, so `list` is None |
| Registry.Restored | LVCPSystem/lvcp_system.py:622-630 | a restorable collection appends one entry named after it (`LVCP_` removed) and makes it active; otherwise nothing changes; a missing collection is reported |
| Registry.RestoreOverwritesActive | LVCPSystem/lvcp_system.py:627-630 | as written, restoring with entry `A` active overwrites `A` and leaves a blank entry behind |
| Registry.RestoredKeepsEntries | LVCPSystem.py:598-606 | the intended restore keeps every existing entry in place |
| Registry.RestoredName | LVCPSystem/lvcp_system.py:629 | `LVCP_{base}` restores under the name `base` |
| Registry.Lvcp.constructor | properties.py:150-156 | no instances, `idx` 0, no collections, no light groups |
| Registry.Lvcp.List | properties.py:170-174 | under the cursor rule `list` is present exactly when there are entries |
| Registry.Lvcp.AddList | properties.py:176-178 | the list grows by the new item, `idx` is the old length, and `list` is the new item |
| Registry.Lvcp.RemoveList | properties.py:180-184 | nothing on an empty list; otherwise the entry at `idx` goes and `idx` is pulled back to at most `len-1`; the cursor rule is kept |
| Registry.Lvcp.AddListLegacy | LVCPSystem/lvcp_system.py:112-113 | append only; `idx` unchanged |
| Registry.Lvcp.RemoveListLegacy | LVCPSystem/lvcp_system.py:115-116 | removes the entry at `idx` when it is valid (Blender raises otherwise); `idx` unchanged |
| Registry.Lvcp.AddPropAndEmptyEntry | LVCPSystem/lvcp_system.py:300-304 | one entry appended with the given name and collection, `idx = len-1`, and `list` is that entry (the same update as LVCPSystem.py:295-299) |
| Registry.Lvcp.RestoreCollection | LVCPSystem.py:593-606 | restore, written as intended, with the required keys as a parameter: `LL`, `FF`, `OO`, `UU` here, `LL`, `OO` in LVCPSystem/lvcp_system.py:622-630 |
| Registry.Lvcp.EnsureInitialCollections | utils.py:58-76 | creates `LVCP` and `Lights` only when missing and reports whether it created anything; the hierarchy becomes `InitialHierarchy` and the collections gain exactly the created ones; objects, selection, entries and cursor are unchanged |
| Registry.InitialHierarchyPlaces | utils.py:58-76 | with both collections present the hierarchy is unchanged; a created `LVCP` is the scene root's only new child; a created `Lights` is a child of `LVCP`; every other collection keeps its children |
| Registry.Lvcp.CollectionManager | operators.py:423-433 | cancelled, with the hierarchy unchanged, without an `LVCP` collection; otherwise the entries' collections up to the first entry without one (where `link_collection` raises on `None`), then the light collection when set, are moved under `LVCP` in turn (`LinkAll`); the earlier children of `LVCP` stay; success means no entry lacked a collection |
| Registry.SomePrefix | operators.py:428-429 | the collections a loop reaches before the first `None`, where `None.name` raises: each in order, and the next one, if any, is `None` |
| Registry.Lvcp.CollectionManagerLegacy | LVCPSystem/lvcp_system.py:589-600 | creates `LVCP` when missing; links each instance collection and then the light collection under it only when no child of that name is there (as LVCPSystem.py:556-570 also does), up to the first `None` collection, where `c.name` raises; stops at the first raise, success meaning none happened |
| Registry.Lvcp.AddLightGroup | LVCPSystem/lvcp_system.py:719-727 | the collection is `LightGroup_{k}` for the old count k and is the only new collection; it sits under the light collection and not the scene root; the group list grows by one; it is linked under the active instance, and that succeeds exactly when there is an active entry whose collection is not the light collection |
| SceneModel.GetObjectsWithLvcp | utils.py:184-189 | exactly the scene objects whose `lvcp` is present and points at the instance's collection (the `has_lvcp` test of LVCPSystem.py:349-352) |
| SceneModel.Tagged | operators.py:277 | the object then has the instance's tag; name, type and bones are unchanged |
| SceneModel.Untagged | operators.py:315 | the tag is gone, and an untagged object is unchanged |
| SceneModel.TagKeepsOtherProps | operators.py:277 | tagging and untagging touch no other custom property |
| SceneModel.IndexOfName | utils.py:194 | the position of an object with that name, None exactly when no object has it |
| SceneModel.TagSelectedPointwise | operators.py:275-280 | exactly the selected meshes are tagged; every other object is unchanged |
| SceneModel.TagSelectedKeeps | operators.py:275-280 | tagging keeps every object's name and type |
| SceneModel.TagThenFind | operators.py:275-280 | after linking, the instance finds every selected mesh |
| SceneModel.UntagTargetsPointwise | operators.py:313-317 | exactly the processed objects lose the tag |
| SceneModel.UntagTargetsUntouched | operators.py:313-317 | an unprocessed object keeps its tag |
| SceneModel.UntagThenFind | operators.py:313-317 | after unlinking, no processed object is found by any instance |
| SceneModel.UnlinkTargets | operators.py:305-311 | with `obj_name`, only the object of that name (none if missing); otherwise the selection |
| SceneModel.Created | utils.py:89-92 | a new collection, linked under the scene root |
| SceneModel.LinkResultOnce | utils.py:94-101 | afterwards `source` is a child of `target` exactly once, and the hierarchy stays well linked |
| SceneModel.LinkResultIdempotent | utils.py:99-101 | linking twice is linking once |
| SceneModel.LinkResultRoot | utils.py:95-98 | with `unlink` the source leaves the scene root; without it the root is untouched |
| SceneModel.LinkResultKeeps | utils.py:94-101 | every other child of the target stays; nothing is put back into the scene root |
| SceneModel.LinkAllPlaces | operators.py:428-431 | every collection linked in turn ends up under the target and out of the scene root |
| SceneModel.LegacyLinkResult | LVCPSystem/lvcp_system.py:137-140 | the older link succeeds exactly when the unlink finds the child in the root and the child is not yet under the target |
| SceneModel.LegacyLinkTwiceFails | LVCPSystem/lvcp_system.py:137-140 | a second older-style link of the same child raises |
| SceneModel.UnlinkPrefixedFilters | properties.py:53-56 | unlinking while walking the children keeps exactly the children without the `LightGroup_` prefix, in order |
| SceneModel.ManageLinksAll | LVCPSystem.py:560-570 | a successful run leaves every collection under `LVCP` and keeps its existing children |
| SceneModel.ManageAllPresent | LVCPSystem.py:560-570 | when every collection is already a child nothing changes |
| SceneModel.ManageIdempotent | LVCPSystem.py:560-570 | a second run after a successful one changes nothing |
| SceneModel.Scene.CreateCollection | utils.py:89-92 | the hierarchy becomes `Created` |
| SceneModel.Scene.LinkCollection | utils.py:94-101 | the hierarchy becomes `LinkResult` |
| SceneModel.Scene.CreateUnder | utils.py:68-72 | the hierarchy becomes `Created` followed by `LinkResult` with unlink: the new collection is under its parent and out of the scene root, and every other child is kept |
| SceneModel.Scene.CreateUnderLegacy | LVCPSystem/lvcp_system.py:721-722 | the hierarchy becomes `Created` followed by the older `LegacyLinkResult`, which succeeds |
| SceneModel.Scene.LinkCollectionLegacy | LVCPSystem/lvcp_system.py:137-140 | hierarchy and success are `LegacyLinkResult` |
| SceneModel.Scene.UnlinkPrefixedChildren | properties.py:53-56 | the children become exactly the unprefixed ones, in order |
| SceneModel.Scene.WithoutPrefixed | properties.py:54-56 | walking a snapshot of distinct children and unlinking each `LightGroup_` one leaves exactly the others, in order |
| SceneModel.Scene.LinkEach | operators.py:428-429 | the hierarchy becomes `LinkAll` |
| SceneModel.Scene.ManageOne | LVCPSystem.py:562-565 | one conditional link |
| SceneModel.Scene.ManageEach | LVCPSystem.py:560-570 | hierarchy and success are `Manage` |
| SceneModel.Scene.LinkObject | operators.py:536-537 | the object is appended to one collection's objects; every other collection and every custom property is unchanged |
| SceneModel.Scene.SetCollectionProp | properties.py:51-52 | one custom property of one collection is set |
| SceneModel.Scene.AddObject | operators.py:527 | the object is appended and its name joins the scene's names |
| SceneModel.Scene.SelectObject | utils.py:191-197 | only the named object is selected and active when it exists; otherwise nothing is selected and the active object stays |
| SceneModel.Scene.LinkObjects | operators.py:271-283 | objects become `TagSelected`; the count is the number of selected meshes |
| SceneModel.Scene.UnlinkObjects | operators.py:302-321 | objects become `UntagTargets`; the count is the number of processed objects that had the tag |
| LightSync.StoreIndex | properties.py:114-120 | a stored index is within [0,3]: an in-range value is kept, a negative one becomes 0 and a larger one 3 |
| LightSync.ClampedIndex | properties.py:79-82 | the clamp lies in [0, max(0,n-1)] and below n for a non-empty group; an in-range index is kept |
| LightSync.ClampedIndexNearest | properties.py:82 | the clamp is the nearest admissible index, and clamping twice is clamping once |
| LightSync.MakeLightsArgString | properties.py:122-124 | empty exactly for no objects; otherwise splits into `var0..var{n-1}` (the same list as LVCPSystem/lvcp_system.py:33-34) |
| LightSync.GetNonLightObjects | properties.py:142-144 | exactly the group objects without `vecLight` |
| LightSync.GetNonLightObjectsOrder | properties.py:142-144 | the result keeps the group's order (it distributes over concatenation) |
| LightSync.IndexSynced | properties.py:73-102 | the index stays in the slider and group range, an in-range index is kept, the active light is `objects[index]`, and the master's `idx` equals the index when there is a master |
| LightSync.IndexSyncedIdempotent | properties.py:100 | writing the clamped value back changes nothing more |
| LightSync.LightChosenAsWritten | properties.py:59-69 | as written, choosing a light moves only the index: active light and master `idx` stay |
| LightSync.LightChosen | properties.py:59-69 | no light, no group or a light outside the group changes nothing |
| LightSync.LightChosenSynced | properties.py:66-69 | after choosing a light of the group, index, active light and master `idx` agree, and the index is the light's position when it fits the slider |
| LightSync.ChosenLightLeavesMasterBehind | properties.py:66-69 | as written, picking `B` in group `[A,B]` sets the index to 1 and leaves the master's `idx` at 0 |
| LightSync.DriveMaster | properties.py:36-47 | each of the master's three new drivers reads `vecLight[i]` of each group object through `var0..var{n-1}` under the selection expression (in both versions, the drivers being fresh after `del_drivers`) |
| LightSync.RebuildMasterDrivers | properties.py:34-47 | the master's `vecLight` drivers are removed, and exist again exactly when the group has objects, then driving the master over them; no other object's drivers change |
| LightSync.GroupRelinkedPlaces | properties.py:53-57 | afterwards the group is a child of the instance; when it was new, it is the only `LightGroup_` child and every other child stays; linking again changes nothing |
| LightSync.GroupRelinkedLegacyAgrees | LVCPSystem/lvcp_system.py:61-66 | the older relink gives the same hierarchy, and it raises exactly when the group was already a child |
| LightSync.RelinkGroup | properties.py:53-57 | the hierarchy becomes `GroupRelinked` |
| LightSync.RelinkGroupLegacy | LVCPSystem/lvcp_system.py:61-66 | success exactly when the group was not yet a child |
| LightSync.ListMain.constructor | properties.py:19-28 | a new instance with no master, group or light, index 0, flag clear |
| LightSync.ListMain.UpdateActiveLightIndex | properties.py:73-102 | while the flag is set nothing changes; otherwise the state becomes `IndexSynced`, the active light alone is selected, and the flag is clear again |
| LightSync.ListMain.SetActiveLightIndex | properties.py:114-120 | the stored value is clamped to [0,3] and the update runs |
| LightSync.ListMain.UpdateActiveLight | properties.py:59-71 | corrected handler: the state becomes `LightChosen` and the chosen light alone is selected |
| LightSync.ListMain.SetActiveLight | properties.py:107-112 | assigning the light runs the corrected handler |
| LightSync.ListMain.UpdateActiveLightAsWritten | properties.py:59-71 | the handler as written: the state becomes `LightChosenAsWritten` and the selection is unchanged |
| LightSync.ListMain.UpdateLightGroup | properties.py:29-57 | the master is the group's `lightMaster`; without one nothing changes; otherwise the master's drivers are removed and, for a non-empty group, rebuilt over it, the state is `IndexSynced` with the active light alone selected (while the flag is set the light state and selection are unchanged, and an empty group leaves the selection alone), the collections become `WithLL` (`LL` set when it reads `None`), and the hierarchy becomes `GroupRelinked` |
| LightSync.ListMain.Resync | properties.py:49-57 | the state becomes `IndexSynced` and the active light alone is selected (the selection is unchanged while the flag is set or for an empty group), the collections `WithLL` and the hierarchy `GroupRelinked` |
| LightSync.ListMain.SyncCollections | properties.py:51-57 | the collections become `WithLL` (`LL` set when it reads `None`, nothing else changed) and the hierarchy `GroupRelinked` |
| LightSync.WithLL | properties.py:51-52 | `LL` is set to the master exactly when it is missing or `None`; no other property or collection changes |
| LightSync.ListMain.AddLightEmpty | operators.py:524-540 | the empty is `Light_Direction_{name}_{k}` for the old group size k and the only new object; it is appended to the light collection and the group and nothing else (plus `LL` when a master exists); its drivers read its own `matrix_world[2][i]`; with a master, the master drives over the grown group, the state is `IndexSynced`, the active light alone is selected (while the flag is set the light state and selection are unchanged) and the hierarchy `GroupRelinked`; without one, the hierarchy, light state and selection are unchanged |
| LightSync.ListMain.CreateLightEmpty | operators.py:526-537 | the new empty and its `vecLight` property, its three drivers reading its own Z axis, and its two links, with every other collection and object's drivers unchanged |
| LightSync.LegacyListMain.UpdateLightGroup | LVCPSystem/lvcp_system.py:45-66 | without a master nothing changes; otherwise the master's drivers are removed; without a group it then raises; with one the new drivers drive the master over the group (even an empty one), the `idx` maximum is `n-1`, and the group is relinked as `GroupRelinkedLegacy` |
| Operators.Collect | utils.py:44-49 | the filter loop returns exactly `Filter` of its input |
| Operators.FindSuitableArmatures | utils.py:41-49 | the suitable armatures, in scene order |
| Operators.SuitableArmaturesExactly | utils.py:41-49 | each found object is a suitable armature of the scene, and each suitable armature is found |
| Operators.ChooseArmature | operators.py:197-218 | a chosen armature is a suitable scene object, and it is the named one when a name is given |
| Operators.ChooseArmatureCases | operators.py:201-218 | a missing name cancels; a present but unsuitable one cancels; without a name, cancelled exactly when nothing is suitable |
| Operators.ChooseFirstSuitable | operators.py:212-214 | without a name, the first suitable armature in scene order is chosen |
| Operators.PollMeansChoice | operators.py:189-191 | the operator is offered exactly when a run without a name would find an armature |
| Operators.FindExistingInstance | operators.py:224-229 | the search with `break` returns the first entry whose collection is the given one, or -1 |
| Operators.ExistingInstanceFound | operators.py:224-233 | an instance is found exactly when some entry's collection is `LVCP_{base}` |
| Operators.AutoSetupOutcome | operators.py:194-233 | a run proceeds only with a suitable armature and no instance for its base name |
| Operators.AutoSetupTwiceCancels | operators.py:224-233 | once the instance is registered, a second run on the same armature cancels |
| Operators.AutoSetupCheck | operators.py:194-233 | the operator's checks compute `AutoSetupOutcome` |
| Operators.MeshesToLink | operators.py:237-245 | the children to link, in order |
| Operators.MeshesToLinkExactly | operators.py:237-245 | exactly the MESH children whose name before the first `.` is Body, Face or Hair |
| Operators.TagAutoLinked | operators.py:247-252 | the tagging loop computes `AutoLinked` |
| Operators.AutoLinkedFound | operators.py:247-252 | afterwards the instance finds every linked mesh, and no other child changes |
| Operators.CreateInstance | operators.py:121-128 | `ensure_initial_collections` runs first, even when the operator then cancels; it cancels exactly when parenting is asked for and the active object is missing or not an armature; otherwise `LVCP_{name}` is created under `LVCP` and out of the root, and an entry for it is appended and made active (operators.py:19, 46-50) |

## Left out

- Everything Blender does outside the modelled state: node trees and their sockets, materials,
  constraints, `hide_set`, `obj.data.update()`, `update_tag()`, colour tags, reports, dialogs,
  panels, operator `invoke`/`draw`, registration and the `load_post` handler.
- Floating point and `mathutils`: node placement, bone-head positions, rotations, and driver
  evaluation. Driver values are plain reals and vectors.
- `id_properties_ui(...).update(soft_max=…)` and the soft limits of `edit_property(...)`: UI
  ranges only. The hard `min=0, max=3` of the index and the older version's hard
  `max=len-1` of `idx` (`LegacyListMain.idxMax`) are modelled.
- Naming.MatchesArmaturePattern: Python's `\d` also matches non-ASCII digits and `$` also
  matches before a trailing newline; the model accepts ASCII digits and no newline.
- `exclude_collection_from_view_layer`: a view-layer flag with no bearing on the modelled state.
- `_setup_new_lvcp_instance`, `add_prop_and_empty` and `del_prop_and_empty`: object, light and
  node creation. Only the registry's cursor update is modelled.
- The legacy `update_active_light` (LVCPSystem/lvcp_system.py:36-43): it writes a `KeyError`
  fallback into the master's custom property and has no guard to state.
- The legacy `AddLightEmpty` (LVCPSystem/lvcp_system.py:757-778): object creation only.
- Registry.Lvcp.AddLightGroup: models up to handing the group to the active instance; the
  master lookup through `collection["LL"]` and the call to `update_light_group` are not
  repeated.
- Registry.Lvcp.AddLightGroup: a missing light collection (where `link_collection` raises on
  `None`) is excluded by its precondition.
- Operators.CreateInstance: the head origin, the default light group and empty, the head drivers
  and the child constraint of `_setup_new_lvcp_instance` are not modelled.
- SceneModel.Scene.UnlinkObjects: the report after the loop reads `lvcp_list.name`, which raises
  when no instance is active; the tags are already removed then, and the error itself is not
  modelled.
- Object lookups by name (`bpy.data.objects.get`) search the scene's objects: the model has one
  object list standing for both.
- Driver F-curves hold only their driver; keyframes, modifiers and the F-curve of other
  properties than `vecLight` are not modelled.
- SceneModel.LinkResultOnce: Blender also refuses a `children.link` that would make a collection
  its own ancestor; the hierarchy carries no acyclicity invariant, so such a link is modelled as
  succeeding.
- LegacyLinkResult: the older link's success does not account for the raise on a link that would
  close a cycle (see `SceneModel.LinkResultOnce`).
- LinkCollection: `SceneModel.Scene.LinkCollection` makes the hierarchy `LinkResult` even for a
  link that would close a cycle, where Blender raises.
- LinkCollectionLegacy: `SceneModel.Scene.LinkCollectionLegacy` reports success per
  `LegacyLinkResult`, so the raise on a link that would close a cycle is not modelled.
- LightSync.ListMain.AddLightEmpty: a light group that is the light collection itself, where the
  second `objects.link` raises (operators.py:537), is excluded by its precondition.
- LightSync.ListMain.UpdateLightGroup: an instance whose collection was deleted, where
  `self.collection.get` raises after the drivers and the index were already rewritten
  (properties.py:51), is excluded by its precondition (and so for `Resync`, `SyncCollections`
  and `AddLightEmpty`).
- LightSync.ListMain.AddLightEmpty: a light collection pointer that is `None` (for instance after
  the `Lights` collection was deleted), where `objects.link` raises (operators.py:536) after the
  empty and its drivers exist, is excluded by its precondition.
- LightSync.LegacyListMain.UpdateLightGroup: an instance collection pointer that is `None`, where
  `self.collection.children` raises (LVCPSystem/lvcp_system.py:61) after the drivers and the
  `idx` range were rewritten, is excluded by its precondition.
- Entries hold a name and a collection only; their other pointer properties are not modelled.
- The master's `idx` custom property is a field of `LightSync.ListMain` (`masterIdx`), not a
  property of the master object.
- LightSync.MasterOf: a `lightMaster` value that is not an object counts as no master.
- Fresh names: where Blender would rename a new object or collection to `name.001`, the model
  requires the name to be unused.
- Operators.MeshesToLink: `arm.children` is given as a list of objects.
- Drivers.SetDrivers: the `IndexError` of a driver list longer than three without `path1` is
  excluded by its precondition.
- SceneModel.LinkResultOnce: "exactly once" is stated with a count of occurrences.
- `LVCP_OT_DeleteInstance`, `LVCP_OT_SelectObject`, `LVCP_OT_RestoreDriver` and the node-group
  operators: host plumbing outside the modelled logic.

## Findings

| source | as written | input that shows it | evidently intended | confidence | as-written member | corrected member |
|---|---|---|---|---|---|---|
| LVCPSystem/lvcp_system.py:627-630 | restore calls `add_list()`, which does not move `idx`, and then writes name and collection through `lvcp.list`, the active entry; the oldest version does the same (LVCPSystem.py:603-605, with `add_list` at LVCPSystem.py:740-741) | one entry `A` active (`idx` 0), restore `LVCP_B`: `A` is overwritten with `B` and a blank entry is appended | append a new entry for the collection and make it active | not executed | Registry.RestoreOverwritesActive | Registry.Restored |
| properties.py:66-69 | `update_active_light` writes `active_light_index` while `_is_updating` is set, so `update_active_light_index` returns at once and the master's `idx` is never updated | group `[A,B]` synced at index 0, choose `B`: index becomes 1, master `idx` stays 0 | choosing a light moves the index, the active light and the master's `idx` together | not executed | LightSync.ChosenLightLeavesMasterBehind | LightSync.LightChosenSynced |
