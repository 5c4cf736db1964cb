/** The slice of Blender's scene the add-on reads and writes: objects with a type, custom
    properties and bones; collections with ordered children, objects and custom properties;
    and the view layer's selection. Objects and collections are identified by name, as Blender
    keeps names unique per kind of data-block. */
module SceneModel {
  import opened Wrappers
  import opened Seqs

  datatype ObjKind = Armature | Mesh | Empty | OtherKind

  /** A custom property value: a pointer (to a collection or object, or None), an int or a 3-vector. */
  datatype Value = NoneValue | IntValue(i: int) | VectorValue(x: real, y: real, z: real)
                 | CollectionRef(coll: string) | ObjectRef(obj: string)

  datatype Obj = Obj(name: string, kind: ObjKind, props: map<string, Value>, bones: set<string>)

  /** The scene's master collection, or a collection in `bpy.data.collections`. */
  datatype CollKey = SceneRoot | Named(name: string)

  /** A collection's own objects and custom properties; its children live in the `Hierarchy`. */
  datatype Coll = Coll(objects: seq<string>, props: map<string, Value>)

  /** Each collection's ordered child collections, by name. */
  type Hierarchy = map<CollKey, seq<string>>

  // Custom property names (utils.py `Constants`).
  const PropCol := "lvcp"
  const PropLight := "vecLight"
  const PropL := "LL"
  const PropO := "OO"
  const PropF := "FF"
  const PropU := "UU"
  const PropMaster := "lightMaster"

  /** The value a pointer property holds: the collection, or None. */
  function RefTo(collection: Option<string>): Value
  {
    match collection
    case Some(c) => CollectionRef(c)
    case None => NoneValue
  }

  /** Python truthiness of a stored property value. */
  predicate Truthy(v: Value)
  {
    match v
    case NoneValue => false
    case IntValue(i) => i != 0
    case _ => true
  }

  /** `has_lvcp`: the object carries `lvcp` and it points at the instance's collection. */
  predicate HasLvcp(o: Obj, collection: Option<string>)
  {
    PropCol in o.props && o.props[PropCol] == RefTo(collection)
  }

  /** `get_objects_with_lvcp`: the scene objects tagged with the instance's collection, in scene order. */
  function GetObjectsWithLvcp(objects: seq<Obj>, collection: Option<string>): (r: seq<Obj>)
    ensures forall i :: 0 <= i < |r| ==> r[i] in objects && HasLvcp(r[i], collection)
    ensures forall i :: 0 <= i < |objects| && HasLvcp(objects[i], collection) ==> objects[i] in r
  {
    FilterMembers(objects, o => HasLvcp(o, collection));
    Filter(objects, o => HasLvcp(o, collection))
  }

  /** `obj["lvcp"] = collection`. */
  function Tagged(o: Obj, collection: Option<string>): (r: Obj)
    ensures HasLvcp(r, collection)
    ensures r.name == o.name && r.kind == o.kind && r.bones == o.bones
  {
    o.(props := o.props[PropCol := RefTo(collection)])
  }

  /** `del obj["lvcp"]`. */
  function Untagged(o: Obj): (r: Obj)
    ensures PropCol !in r.props
    ensures r.name == o.name && r.kind == o.kind && r.bones == o.bones
    ensures PropCol !in o.props ==> r == o
  {
    o.(props := o.props - {PropCol})
  }

  /** Tagging and untagging touch no custom property other than `lvcp`. */
  lemma TagKeepsOtherProps(o: Obj, collection: Option<string>)
    ensures forall k :: k in o.props && k != PropCol ==>
      k in Tagged(o, collection).props && Tagged(o, collection).props[k] == o.props[k] &&
      k in Untagged(o).props && Untagged(o).props[k] == o.props[k]
  {
  }

  /** Does position `k` of `objects` hold a mesh? */
  function IsMeshAt(objects: seq<Obj>): nat -> bool
  {
    (k: nat) => k < |objects| && objects[k].kind == Mesh
  }

  /** Does position `k` of `objects` hold an object tagged with `lvcp`? */
  function IsTaggedAt(objects: seq<Obj>): nat -> bool
  {
    (k: nat) => k < |objects| && PropCol in objects[k].props
  }

  function NamesOf(objects: seq<Obj>): set<string>
  {
    set i | 0 <= i < |objects| :: objects[i].name
  }

  /** Two object lists that agree on every name have the same name set. */
  lemma SameNames(a: seq<Obj>, b: seq<Obj>)
    requires |a| == |b| && forall i :: 0 <= i < |a| ==> a[i].name == b[i].name
    ensures NamesOf(a) == NamesOf(b)
  {
    forall n | n in NamesOf(a) ensures n in NamesOf(b) {
      var i :| 0 <= i < |a| && a[i].name == n;
      assert b[i].name == n;
    }
    forall n | n in NamesOf(b) ensures n in NamesOf(a) {
      var i :| 0 <= i < |b| && b[i].name == n;
      assert a[i].name == n;
    }
  }

  /** Position of the first object called `name` (`bpy.data.objects.get(name)`). */
  function IndexOfName(objects: seq<Obj>, name: string): (r: Option<nat>)
    ensures r.Some? ==> r.value < |objects| && objects[r.value].name == name
    ensures r.None? <==> name !in NamesOf(objects)
  {
    if objects == [] then None
    else if objects[0].name == name then Some(0)
    else
      var k := IndexOfName(objects[1..], name);
      assert NamesOf(objects) == {objects[0].name} + NamesOf(objects[1..]) by {
        forall n | n in NamesOf(objects) ensures n in {objects[0].name} + NamesOf(objects[1..]) {
          var i :| 0 <= i < |objects| && objects[i].name == n;
          if i > 0 { assert objects[1..][i - 1].name == n; }
        }
      }
      if k.None? then None else Some(k.value + 1)
  }

  // ---------------------------------------------------------------------------
  // Tagging objects with an instance's collection.

  /** The objects after tagging every selected mesh (positions in `sel`) with `collection`. */
  function TagSelected(objs: seq<Obj>, sel: seq<nat>, collection: Option<string>): (r: seq<Obj>)
    ensures |r| == |objs|
  {
    if sel == [] then objs
    else
      var r := TagSelected(objs, sel[..|sel| - 1], collection);
      var k := sel[|sel| - 1];
      if k < |objs| && objs[k].kind == Mesh then r[k := Tagged(r[k], collection)] else r
  }

  /** Tagging keeps every object's name and type. */
  lemma {:induction false} TagSelectedKeeps(objs: seq<Obj>, sel: seq<nat>, collection: Option<string>, k: nat)
    requires k < |objs|
    ensures TagSelected(objs, sel, collection)[k].name == objs[k].name
    ensures TagSelected(objs, sel, collection)[k].kind == objs[k].kind
  {
    if sel != [] {
      TagSelectedKeeps(objs, sel[..|sel| - 1], collection, k);
    }
  }

  /** Tagging over a prefix one position longer is one more tagging step. */
  lemma TagSelectedStep(objs: seq<Obj>, sel: seq<nat>, j: nat, collection: Option<string>)
    requires j < |sel|
    ensures var r := TagSelected(objs, sel[..j], collection);
      TagSelected(objs, sel[..j + 1], collection) ==
        if sel[j] < |objs| && objs[sel[j]].kind == Mesh then r[sel[j] := Tagged(r[sel[j]], collection)] else r
  {
    assert sel[..j + 1][..j] == sel[..j];
  }

  /** Exactly the selected meshes are tagged, and every other object is as it was. */
  lemma {:induction false} TagSelectedPointwise(objs: seq<Obj>, sel: seq<nat>, collection: Option<string>)
    ensures forall i :: 0 <= i < |objs| ==>
              TagSelected(objs, sel, collection)[i] ==
                if i in sel && objs[i].kind == Mesh then Tagged(objs[i], collection) else objs[i]
  {
    if sel != [] {
      var init := sel[..|sel| - 1];
      TagSelectedPointwise(objs, init, collection);
      assert sel == init + [sel[|sel| - 1]];
      forall i | 0 <= i < |objs| && i in init
        ensures i in sel
      {
      }
    }
  }

  /** The objects after removing the tag from each object at a position in `targets`. */
  function UntagTargets(objs: seq<Obj>, targets: seq<nat>): (r: seq<Obj>)
    ensures |r| == |objs|
  {
    if targets == [] then objs
    else
      var r := UntagTargets(objs, targets[..|targets| - 1]);
      var k := targets[|targets| - 1];
      if k < |objs| then r[k := Untagged(r[k])] else r
  }

  /** Untagging over a prefix one position longer is one more untagging step. */
  lemma UntagTargetsStep(objs: seq<Obj>, targets: seq<nat>, j: nat)
    requires j < |targets|
    ensures var r := UntagTargets(objs, targets[..j]);
      UntagTargets(objs, targets[..j + 1]) == if targets[j] < |objs| then r[targets[j] := Untagged(r[targets[j]])] else r
  {
    assert targets[..j + 1][..j] == targets[..j];
  }

  /** Exactly the targeted objects lose the tag, and every other object is as it was. */
  lemma {:induction false} UntagTargetsPointwise(objs: seq<Obj>, targets: seq<nat>)
    ensures forall i :: 0 <= i < |objs| ==>
              UntagTargets(objs, targets)[i] == if i in targets then Untagged(objs[i]) else objs[i]
  {
    if targets != [] {
      var init := targets[..|targets| - 1];
      UntagTargetsPointwise(objs, init);
      assert targets == init + [targets[|targets| - 1]];
    }
  }

  /** An object no target points at keeps its tag. */
  lemma {:induction false} UntagTargetsUntouched(objs: seq<Obj>, targets: seq<nat>, k: nat)
    requires k < |objs| && k !in targets
    ensures UntagTargets(objs, targets)[k] == objs[k]
  {
    if targets != [] {
      var init := targets[..|targets| - 1];
      assert forall j :: 0 <= j < |init| ==> init[j] == targets[j];
      UntagTargetsUntouched(objs, init, k);
    }
  }

  /** After tagging, the instance finds every selected mesh. */
  lemma TagThenFind(objs: seq<Obj>, sel: seq<nat>, collection: Option<string>)
    ensures forall i :: 0 <= i < |objs| && i in sel && objs[i].kind == Mesh ==>
              TagSelected(objs, sel, collection)[i] in GetObjectsWithLvcp(TagSelected(objs, sel, collection), collection)
  {
    TagSelectedPointwise(objs, sel, collection);
  }

  /** After untagging, no targeted object is found by any instance. */
  lemma UntagThenFind(objs: seq<Obj>, targets: seq<nat>, collection: Option<string>)
    ensures forall i :: 0 <= i < |objs| && i in targets ==> !HasLvcp(UntagTargets(objs, targets)[i], collection)
  {
    UntagTargetsPointwise(objs, targets);
  }

  /** The objects `UnlinkObjects` processes: the one named `objName` if a name is given (none if
      no object has it), otherwise the selection. */
  function UnlinkTargets(objects: seq<Obj>, objName: string, selection: seq<nat>): (r: seq<nat>)
    requires NoDup(selection)
    ensures NoDup(r)
    ensures objName == "" ==> r == selection
    ensures objName != "" ==> |r| <= 1 && (r == [] <==> objName !in NamesOf(objects))
    ensures objName != "" ==> forall j :: 0 <= j < |r| ==> r[j] < |objects| && objects[r[j]].name == objName
  {
    if objName != "" then
      match IndexOfName(objects, objName)
      case Some(k) => [k]
      case None => []
    else selection
  }

  /** The names of the objects at the positions of `sel`: the selection as a set of names. */
  function SelectedNames(objects: seq<Obj>, sel: seq<nat>): set<string>
    requires forall j :: 0 <= j < |sel| ==> sel[j] < |objects|
  {
    set j | 0 <= j < |sel| :: objects[sel[j]].name
  }

  /** `collection.objects.link(obj)` on a map of collections. */
  function ObjectLinked(colls: map<CollKey, Coll>, k: CollKey, name: string): (r: map<CollKey, Coll>)
    requires k in colls
    ensures r.Keys == colls.Keys && r[k].props == colls[k].props
    ensures forall k' :: k' in colls && k' != k ==> r[k'] == colls[k']
  {
    colls[k := colls[k].(objects := colls[k].objects + [name])]
  }

  // ---------------------------------------------------------------------------
  // The collection hierarchy.

  /** Children of `k` (none for an unknown collection). */
  function ChildrenOf(h: Hierarchy, k: CollKey): seq<string>
  {
    if k in h then h[k] else []
  }

  /** A children list Blender accepts: no duplicates, and every child an existing collection. */
  predicate ChildrenOk(h: Hierarchy, ch: seq<string>)
  {
    NoDup(ch) && forall i :: 0 <= i < |ch| ==> Named(ch[i]) in h
  }

  /** Blender's invariants on the hierarchy: the master collection exists and every children list
      is acceptable. */
  predicate WellLinked(h: Hierarchy)
  {
    SceneRoot in h && forall k {:trigger h[k]} :: k in h ==> ChildrenOk(h, h[k])
  }

  /** Replacing one collection's children by an acceptable list keeps the hierarchy well linked. */
  lemma SetChildrenWellLinked(h: Hierarchy, k: CollKey, ch: seq<string>)
    requires WellLinked(h) && k in h && ChildrenOk(h, ch)
    ensures WellLinked(h[k := ch])
  {
    var h' := h[k := ch];
    forall k' | k' in h' ensures ChildrenOk(h', h'[k']) {
      assert ChildrenOk(h, h'[k']);
    }
  }

  /** A duplicate-free list drawn from an acceptable one is acceptable. */
  lemma SubChildrenOk(h: Hierarchy, ch: seq<string>, ch': seq<string>)
    requires ChildrenOk(h, ch) && NoDup(ch') && forall i :: 0 <= i < |ch'| ==> ch'[i] in ch
    ensures ChildrenOk(h, ch')
  {
    forall i | 0 <= i < |ch'| ensures Named(ch'[i]) in h {
      assert ch'[i] in ch;
      var j :| 0 <= j < |ch| && ch[j] == ch'[i];
    }
  }

  /** Filtering a children list keeps it acceptable. */
  lemma FilterChildrenOk(h: Hierarchy, ch: seq<string>, p: string -> bool)
    requires ChildrenOk(h, ch)
    ensures ChildrenOk(h, Filter(ch, p))
  {
    FilterNoDup(ch, p);
    FilterMembers(ch, p);
    SubChildrenOk(h, ch, Filter(ch, p));
  }

  /** Dropping `source` from a children list keeps it acceptable. */
  lemma WithoutChildrenOk(h: Hierarchy, ch: seq<string>, source: string)
    requires ChildrenOk(h, ch)
    ensures ChildrenOk(h, Without(ch, source))
  {
    FilterChildrenOk(h, ch, NotEqual(source));
  }

  /** Appending an existing collection that is not yet a child keeps a children list acceptable. */
  lemma SnocChildrenOk(h: Hierarchy, ch: seq<string>, source: string)
    requires ChildrenOk(h, ch) && source !in ch && Named(source) in h
    ensures ChildrenOk(h, ch + [source])
  {
    NoDupSnoc(ch, source);
  }

  /** The hierarchy after `create_collection(name)`: a new collection without children, linked
      last under the master collection. */
  function Created(h: Hierarchy, name: string): (r: Hierarchy)
    requires SceneRoot in h
    ensures r.Keys == h.Keys + {Named(name)}
    ensures name in r[SceneRoot]
  {
    h[Named(name) := []][SceneRoot := h[SceneRoot] + [name]]
  }

  /** Linking one collection keeps every other child of the target and never puts a collection
      back into the master collection. */
  lemma LinkResultKeeps(h: Hierarchy, target: CollKey, source: string, c: string)
    requires SceneRoot in h && target in h && target != SceneRoot
    ensures c in h[target] ==> c in LinkResult(h, target, source, true)[target]
    ensures c !in h[SceneRoot] ==> c !in LinkResult(h, target, source, true)[SceneRoot]
  {
    WithoutMembers(h[SceneRoot], source);
  }

  /** The hierarchy after `link_collection(target, source, unlink)` (current version): with
      `unlink`, drop `source` from the master collection if it is there; then link it under
      `target` unless it already is a child. */
  function LinkResult(h: Hierarchy, target: CollKey, source: string, unlink: bool): (r: Hierarchy)
    requires SceneRoot in h && target in h
    ensures SceneRoot in r && target in r
  {
    var h1 := if unlink && source in h[SceneRoot] then h[SceneRoot := Without(h[SceneRoot], source)] else h;
    if source in h1[target] then h1 else h1[target := h1[target] + [source]]
  }

  /** After linking, `source` is a child of `target` exactly once, the hierarchy stays well
      linked, and no collection appears or disappears. */
  lemma LinkResultOnce(h: Hierarchy, target: CollKey, source: string, unlink: bool)
    requires WellLinked(h) && target in h && Named(source) in h
    ensures var r := LinkResult(h, target, source, unlink);
      WellLinked(r) && r.Keys == h.Keys && Count(ChildrenOf(r, target), source) == 1
  {
    var h1 := h;
    if unlink && source in h[SceneRoot] {
      WithoutChildrenOk(h, h[SceneRoot], source);
      SetChildrenWellLinked(h, SceneRoot, Without(h[SceneRoot], source));
      h1 := h[SceneRoot := Without(h[SceneRoot], source)];
    }
    var r := h1;
    if source !in h1[target] {
      SnocChildrenOk(h1, h1[target], source);
      SetChildrenWellLinked(h1, target, h1[target] + [source]);
      r := h1[target := h1[target] + [source]];
    }
    assert r == LinkResult(h, target, source, unlink);
    assert ChildrenOk(r, r[target]);
    NoDupCount(r[target], source);
  }

  /** Linking twice is linking once. */
  lemma LinkResultIdempotent(h: Hierarchy, target: CollKey, source: string, unlink: bool)
    requires SceneRoot in h && target in h
    ensures var r := LinkResult(h, target, source, unlink);
      LinkResult(r, target, source, unlink) == r
  {
    var r := LinkResult(h, target, source, unlink);
    var root := h[SceneRoot];
    WithoutMembers(root, source);
    if unlink && source in r[SceneRoot] {
      // Only possible when the target is the master collection itself, where `source` was re-added last.
      var w := if source in root then Without(root, source) else root;
      assert target == SceneRoot;
      assert r[SceneRoot] == w + [source];
      WithoutSplice(w, source, []);
      assert w + [source] + [] == w + [source] && w + [] == w;
    }
  }

  /** With `unlink` and a target other than the master collection, `source` ends up out of the
      master collection; without `unlink`, the master collection is left alone. */
  lemma LinkResultRoot(h: Hierarchy, target: CollKey, source: string, unlink: bool)
    requires SceneRoot in h && target in h && target != SceneRoot
    ensures source in LinkResult(h, target, source, unlink)[target]
    ensures unlink ==> source !in ChildrenOf(LinkResult(h, target, source, unlink), SceneRoot)
    ensures !unlink ==> ChildrenOf(LinkResult(h, target, source, unlink), SceneRoot) == h[SceneRoot]
  {
    WithoutMembers(h[SceneRoot], source);
  }

  /** The hierarchy after the current `link_collection(target, c, True)` for each `c` of
      `names[from..]` in turn. */
  function LinkAll(h: Hierarchy, target: CollKey, names: seq<string>, from: nat): (r: Hierarchy)
    requires SceneRoot in h && target in h
    ensures SceneRoot in r && target in r
    decreases |names| - from
  {
    if from >= |names| then h
    else LinkAll(LinkResult(h, target, names[from], true), target, names, from + 1)
  }

  /** Linking a list of collections under a collection other than the master one leaves each of
      them under it and out of the master collection; children already there stay, and nothing
      is put back into the master collection. */
  lemma {:induction false} LinkAllPlaces(h: Hierarchy, target: CollKey, names: seq<string>, from: nat)
    requires SceneRoot in h && target in h && target != SceneRoot
    ensures forall c :: c in h[target] ==> c in LinkAll(h, target, names, from)[target]
    ensures forall c :: c !in h[SceneRoot] ==> c !in LinkAll(h, target, names, from)[SceneRoot]
    ensures forall j :: from <= j < |names| ==>
      names[j] in LinkAll(h, target, names, from)[target] && names[j] !in LinkAll(h, target, names, from)[SceneRoot]
    decreases |names| - from
  {
    if from < |names| {
      var h1 := LinkResult(h, target, names[from], true);
      LinkAllPlaces(h1, target, names, from + 1);
      LinkResultRoot(h, target, names[from], true);
      forall c | c in h[target] ensures c in h1[target] {
        LinkResultKeeps(h, target, names[from], c);
      }
      forall c | c !in h[SceneRoot] ensures c !in h1[SceneRoot] {
        LinkResultKeeps(h, target, names[from], c);
      }
    }
  }

  /** The hierarchy and success after the older `link_collection`: it unlinks from and links into
      the hierarchy unconditionally, and Blender raises when the child is missing from the master
      collection or already under `target` (an unlink done before a failing link stays). */
  function LegacyLinkResult(h: Hierarchy, target: CollKey, source: string, unlink: bool): (r: (Hierarchy, bool))
    requires SceneRoot in h && target in h
    ensures r.1 ==> source in ChildrenOf(r.0, target)
    ensures r.1 <==> (!unlink || source in h[SceneRoot]) &&
                     source !in ChildrenOf(if unlink then h[SceneRoot := Without(h[SceneRoot], source)] else h, target)
  {
    if unlink && source !in h[SceneRoot] then (h, false)
    else
      var h1 := if unlink then h[SceneRoot := Without(h[SceneRoot], source)] else h;
      if source in h1[target] then (h1, false)
      else (h1[target := h1[target] + [source]], true)
  }

  /** A second older-style link of the same child into the same collection always fails. */
  lemma LegacyLinkTwiceFails(h: Hierarchy, target: CollKey, source: string, unlink: bool)
    requires SceneRoot in h && target in h && target != SceneRoot
    requires LegacyLinkResult(h, target, source, unlink).1
    ensures !LegacyLinkResult(LegacyLinkResult(h, target, source, unlink).0, target, source, unlink).1
  {
  }

  /** A predicate value: "does not start with `prefix`". */
  function NotPrefixedBy(prefix: string): string -> bool
  {
    c => !(prefix <= c)
  }

  /** The children list `ch` after `for c in snapshot[from..]: if c.name.startswith(prefix):
      unlink(c)`, where each unlink drops `c` from the list. */
  function UnlinkPrefixed(ch: seq<string>, snapshot: seq<string>, from: nat, prefix: string): seq<string>
    decreases |snapshot| - from
  {
    if from >= |snapshot| then ch
    else UnlinkPrefixed(if prefix <= snapshot[from] then Without(ch, snapshot[from]) else ch, snapshot, from + 1, prefix)
  }

  /** Unlinking while walking a snapshot of a duplicate-free children list keeps exactly the
      children without the prefix, in their order. */
  lemma {:induction false} UnlinkPrefixedFilters(s: seq<string>, i: nat, prefix: string)
    requires NoDup(s) && i <= |s|
    ensures UnlinkPrefixed(Filter(s[..i], NotPrefixedBy(prefix)) + s[i..], s, i, prefix) == Filter(s, NotPrefixedBy(prefix))
    decreases |s| - i
  {
    var p := NotPrefixedBy(prefix);
    if i < |s| {
      if prefix <= s[i] {
        FilterDropStep(s, i, p);
      } else {
        FilterKeepStep(s, i, p);
      }
      UnlinkPrefixedFilters(s, i + 1, prefix);
    } else {
      assert s[..i] == s && s[i..] == [];
      assert Filter(s, p) + [] == Filter(s, p);
    }
  }

  /** One item of the older `_collection_manager`: link `c` under `lvcp` only if no child of that
      name is there yet. */
  function ManageStep(h: Hierarchy, lvcp: CollKey, c: string, unlink: bool): (Hierarchy, bool)
    requires SceneRoot in h && lvcp in h
  {
    if c in h[lvcp] then (h, true) else LegacyLinkResult(h, lvcp, c, unlink)
  }

  /** The older `_collection_manager` over `names[from..]`; it stops at the first raise. */
  function Manage(h: Hierarchy, lvcp: CollKey, names: seq<string>, from: nat, unlink: bool): (r: (Hierarchy, bool))
    requires SceneRoot in h && lvcp in h
    ensures SceneRoot in r.0 && lvcp in r.0
    decreases |names| - from
  {
    if from >= |names| then (h, true)
    else
      var step := ManageStep(h, lvcp, names[from], unlink);
      if !step.1 then step else Manage(step.0, lvcp, names, from + 1, unlink)
  }

  /** A run that succeeds leaves every name a child of `lvcp`, and keeps the children it had. */
  lemma {:induction false} ManageLinksAll(h: Hierarchy, lvcp: CollKey, names: seq<string>, from: nat, unlink: bool)
    requires SceneRoot in h && lvcp in h && lvcp != SceneRoot
    ensures forall c :: c in h[lvcp] ==> c in Manage(h, lvcp, names, from, unlink).0[lvcp]
    ensures Manage(h, lvcp, names, from, unlink).1 ==>
      forall i :: from <= i < |names| ==> names[i] in Manage(h, lvcp, names, from, unlink).0[lvcp]
    decreases |names| - from
  {
    if from < |names| {
      var step := ManageStep(h, lvcp, names[from], unlink);
      if step.1 {
        ManageLinksAll(step.0, lvcp, names, from + 1, unlink);
      }
    }
  }

  /** When every name is already a child, managing changes nothing and succeeds. */
  lemma {:induction false} ManageAllPresent(h: Hierarchy, lvcp: CollKey, names: seq<string>, from: nat, unlink: bool)
    requires SceneRoot in h && lvcp in h
    requires forall i :: from <= i < |names| ==> names[i] in h[lvcp]
    ensures Manage(h, lvcp, names, from, unlink) == (h, true)
    decreases |names| - from
  {
    if from < |names| {
      ManageAllPresent(h, lvcp, names, from + 1, unlink);
    }
  }

  /** `_collection_manager` is idempotent: a run that succeeds leaves a hierarchy that a second
      run does not change. */
  lemma ManageIdempotent(h: Hierarchy, lvcp: CollKey, names: seq<string>, unlink: bool)
    requires SceneRoot in h && lvcp in h && lvcp != SceneRoot
    requires Manage(h, lvcp, names, 0, unlink).1
    ensures var r := Manage(h, lvcp, names, 0, unlink).0;
      Manage(r, lvcp, names, 0, unlink) == (r, true)
  {
    ManageLinksAll(h, lvcp, names, 0, unlink);
    ManageAllPresent(Manage(h, lvcp, names, 0, unlink).0, lvcp, names, 0, unlink);
  }

  class Scene {
    /** `context.scene.objects`, in scene order. */
    var objects: seq<Obj>
    /** `bpy.data.collections` plus the master collection, and how they nest. */
    var colls: map<CollKey, Coll>
    var children: Hierarchy
    /** Names of the selected objects and the view layer's active object. */
    var selected: set<string>
    var active: Option<string>

    ghost predicate Valid()
      reads this
    {
      WellLinked(children) && colls.Keys == children.Keys
    }

    constructor (objects: seq<Obj>)
      ensures Valid() && this.objects == objects
      ensures colls == map[SceneRoot := Coll([], map[])] && children == map[SceneRoot := []]
      ensures selected == {} && active == None
    {
      this.objects := objects;
      colls := map[SceneRoot := Coll([], map[])];
      children := map[SceneRoot := []];
      selected := {};
      active := None;
    }

    /** `create_collection(name)`: a new, empty collection linked under the master collection.
        `name` is the name the host gave the new data-block, which is always unused. */
    method CreateCollection(name: string)
      requires Valid() && Named(name) !in colls
      modifies this
      ensures Valid() && objects == old(objects) && selected == old(selected) && active == old(active)
      ensures colls == old(colls)[Named(name) := Coll([], map[])]
      ensures children == Created(old(children), name)
    {
      var h := children[Named(name) := []];
      assert WellLinked(h) by {
        forall k | k in h ensures ChildrenOk(h, h[k]) {
          if k != Named(name) { assert ChildrenOk(children, h[k]); }
        }
      }
      SnocChildrenOk(h, h[SceneRoot], name);
      SetChildrenWellLinked(h, SceneRoot, h[SceneRoot] + [name]);
      colls := colls[Named(name) := Coll([], map[])];
      children := h[SceneRoot := h[SceneRoot] + [name]];
    }

    /** `link_collection(target, source, unlink)`, current version. */
    method LinkCollection(target: CollKey, source: string, unlink: bool)
      requires Valid() && target in colls && Named(source) in colls
      modifies this
      ensures Valid() && objects == old(objects) && colls == old(colls)
      ensures selected == old(selected) && active == old(active)
      ensures children == LinkResult(old(children), target, source, unlink)
    {
      ghost var h := children;
      LinkResultOnce(h, target, source, unlink);
      if unlink {
        if source in children[SceneRoot] {
          children := children[SceneRoot := Without(children[SceneRoot], source)];
        }
      }
      if source !in children[target] {
        children := children[target := children[target] + [source]];
      }
      assert children == LinkResult(h, target, source, unlink);
    }

    /** `create_collection(name)` followed by `link_collection(parent, it, True)`: the new
        collection ends up under `parent` and out of the master collection. */
    method CreateUnder(parent: CollKey, name: string)
      requires Valid() && parent in colls && parent != SceneRoot && Named(name) !in colls
      modifies this
      ensures Valid() && objects == old(objects) && selected == old(selected) && active == old(active)
      ensures colls == old(colls)[Named(name) := Coll([], map[])]
      ensures children == LinkResult(Created(old(children), name), parent, name, true)
      ensures name in children[parent] && name !in children[SceneRoot]
    {
      CreateCollection(name);
      ghost var h := children;
      LinkCollection(parent, name, true);
      LinkResultRoot(h, parent, name, true);
    }

    /** `create_collection(name)` followed by the older `link_collection(parent, it, True)`,
        which cannot raise here: the new collection sits in the master collection and under no
        other. Afterwards it is a child of `parent` only. */
    method CreateUnderLegacy(parent: CollKey, name: string)
      requires Valid() && parent in colls && parent != SceneRoot && Named(name) !in colls
      modifies this
      ensures Valid() && objects == old(objects) && selected == old(selected) && active == old(active)
      ensures colls == old(colls)[Named(name) := Coll([], map[])]
      ensures (children, true) == LegacyLinkResult(Created(old(children), name), parent, name, true)
      ensures name in children[parent]
      ensures forall k :: k in children && k != parent ==> name !in children[k]
    {
      ghost var h0 := children;
      CreateCollection(name);
      ghost var h1 := children;
      assert forall k :: k in h0 ==> name !in h0[k] by {
        forall k | k in h0 ensures name !in h0[k] {
          assert ChildrenOk(h0, h0[k]);
        }
      }
      var ok := LinkCollectionLegacy(parent, name, true);
      WithoutMembers(h1[SceneRoot], name);
    }

    /** `link_collection(target, source, unlink)`, older version; `ok` is false where Blender raises. */
    method LinkCollectionLegacy(target: CollKey, source: string, unlink: bool) returns (ok: bool)
      requires Valid() && target in colls && Named(source) in colls
      modifies this
      ensures Valid() && objects == old(objects) && colls == old(colls)
      ensures selected == old(selected) && active == old(active)
      ensures (children, ok) == LegacyLinkResult(old(children), target, source, unlink)
    {
      if unlink {
        if source !in children[SceneRoot] {
          return false;
        }
        WithoutChildrenOk(children, children[SceneRoot], source);
        SetChildrenWellLinked(children, SceneRoot, Without(children[SceneRoot], source));
        children := children[SceneRoot := Without(children[SceneRoot], source)];
      }
      if source in children[target] {
        return false;
      }
      SnocChildrenOk(children, children[target], source);
      SetChildrenWellLinked(children, target, children[target] + [source]);
      children := children[target := children[target] + [source]];
      ok := true;
    }

    /** `for c in collection.children: if c.name.startswith(prefix): collection.children.unlink(c)`. */
    method UnlinkPrefixedChildren(k: CollKey, prefix: string)
      requires Valid() && k in colls
      modifies this
      ensures Valid() && objects == old(objects) && colls == old(colls)
      ensures selected == old(selected) && active == old(active)
      ensures children == old(children)[k := Filter(old(children)[k], NotPrefixedBy(prefix))]
    {
      var snapshot := children[k];
      ghost var h0 := children;
      assert ChildrenOk(h0, snapshot);
      FilterChildrenOk(h0, snapshot, NotPrefixedBy(prefix));
      SetChildrenWellLinked(h0, k, Filter(snapshot, NotPrefixedBy(prefix)));
      var ch := WithoutPrefixed(snapshot, prefix);
      children := children[k := ch];
    }

    /** The unlinking loop on a snapshot of the children (a collection's children have
        distinct names): each name starting with `prefix` is removed, and the others keep their
        order. */
    static method WithoutPrefixed(snapshot: seq<string>, prefix: string) returns (ch: seq<string>)
      requires NoDup(snapshot)
      ensures ch == Filter(snapshot, NotPrefixedBy(prefix))
    {
      assert Filter(snapshot[..0], NotPrefixedBy(prefix)) + snapshot[0..] == snapshot;
      UnlinkPrefixedFilters(snapshot, 0, prefix);
      ghost var goal := Filter(snapshot, NotPrefixedBy(prefix));
      ch := snapshot;
      var i := 0;
      while i < |snapshot|
        invariant 0 <= i <= |snapshot|
        invariant goal == UnlinkPrefixed(ch, snapshot, i, prefix)
      {
        var c := snapshot[i];
        if prefix <= c {
          ch := Without(ch, c);
        }
        i := i + 1;
      }
    }

    /** Move each collection of `names` in turn under `target` with the current
        `link_collection(target, c, True)`. */
    method LinkEach(target: CollKey, names: seq<string>)
      requires Valid() && target in colls
      requires forall j :: 0 <= j < |names| ==> Named(names[j]) in colls
      modifies this
      ensures Valid() && objects == old(objects) && colls == old(colls)
      ensures selected == old(selected) && active == old(active)
      ensures children == LinkAll(old(children), target, names, 0)
    {
      ghost var goal := LinkAll(children, target, names, 0);
      var i := 0;
      while i < |names|
        invariant 0 <= i <= |names|
        invariant Valid() && objects == old(objects) && colls == old(colls)
        invariant selected == old(selected) && active == old(active)
        invariant goal == LinkAll(children, target, names, i)
      {
        LinkCollection(target, names[i], true);
        i := i + 1;
      }
    }

    /** One item of the older `_collection_manager`: link `c` under `target` unless a child of
        that name is there; `ok` is false where Blender raises. */
    method ManageOne(target: CollKey, c: string, unlink: bool) returns (ok: bool)
      requires Valid() && target in colls && Named(c) in colls
      modifies this
      ensures Valid() && objects == old(objects) && colls == old(colls)
      ensures selected == old(selected) && active == old(active)
      ensures children == ManageStep(old(children), target, c, unlink).0
      ensures ok == ManageStep(old(children), target, c, unlink).1
    {
      ok := true;
      if c !in children[target] {
        ok := LinkCollectionLegacy(target, c, unlink);
      }
    }

    /** The older `_collection_manager` loop: link each collection of `names` under `target`
        unless a child of that name is there, stopping where Blender raises. */
    method ManageEach(target: CollKey, names: seq<string>, unlink: bool) returns (ok: bool)
      requires Valid() && target in colls
      requires forall j :: 0 <= j < |names| ==> Named(names[j]) in colls
      modifies this
      ensures Valid() && objects == old(objects) && colls == old(colls)
      ensures selected == old(selected) && active == old(active)
      ensures (children, ok) == Manage(old(children), target, names, 0, unlink)
    {
      ghost var goal := Manage(children, target, names, 0, unlink);
      ok := true;
      var i := 0;
      while i < |names| && ok
        invariant 0 <= i <= |names|
        invariant Valid() && objects == old(objects) && colls == old(colls)
        invariant selected == old(selected) && active == old(active)
        invariant goal == if ok then Manage(children, target, names, i, unlink) else (children, false)
      {
        ok := ManageOne(target, names[i], unlink);
        i := i + 1;
      }
    }

    /** `collection.objects.link(obj)`. */
    method LinkObject(k: CollKey, name: string)
      requires Valid() && k in colls && name !in colls[k].objects
      modifies this
      ensures Valid() && objects == old(objects) && children == old(children)
      ensures selected == old(selected) && active == old(active)
      ensures colls == ObjectLinked(old(colls), k, name)
    {
      colls := colls[k := colls[k].(objects := colls[k].objects + [name])];
    }

    /** `collection[key] = value` on a collection's custom properties. */
    method SetCollectionProp(k: CollKey, key: string, v: Value)
      requires Valid() && k in colls
      modifies this
      ensures Valid() && objects == old(objects) && children == old(children)
      ensures selected == old(selected) && active == old(active)
      ensures colls == old(colls)[k := old(colls)[k].(props := old(colls)[k].props[key := v])]
    {
      colls := colls[k := colls[k].(props := colls[k].props[key := v])];
    }

    /** A new object enters the scene (`bpy.data.objects.new` plus a link into a scene collection). */
    method AddObject(o: Obj)
      requires Valid() && o.name !in NamesOf(objects)
      modifies this
      ensures Valid() && objects == old(objects) + [o] && colls == old(colls) && children == old(children)
      ensures selected == old(selected) && active == old(active)
      ensures NamesOf(objects) == NamesOf(old(objects)) + {o.name}
    {
      objects := objects + [o];
      assert NamesOf(objects) == NamesOf(old(objects)) + {o.name} by {
        forall n | n in NamesOf(old(objects)) ensures n in NamesOf(objects) {
          var i :| 0 <= i < |old(objects)| && old(objects)[i].name == n;
          assert objects[i].name == n;
        }
        assert objects[|objects| - 1].name == o.name;
      }
    }

    /** `select_object(name)`: clear the whole selection, then select `name` and make it active
        when such an object exists. */
    method SelectObject(name: string)
      requires Valid() && selected <= NamesOf(objects)
      modifies this
      ensures Valid() && objects == old(objects) && colls == old(colls) && children == old(children)
      ensures selected == if name in NamesOf(objects) then {name} else {}
      ensures active == if name in NamesOf(objects) then Some(name) else old(active)
    {
      var i := 0;
      while i < |objects|
        invariant 0 <= i <= |objects|
        invariant selected == old(selected) - NamesOf(objects[..i])
        invariant objects == old(objects) && colls == old(colls) && children == old(children)
        invariant active == old(active)
      {
        assert NamesOf(objects[..i + 1]) == NamesOf(objects[..i]) + {objects[i].name} by {
          assert objects[..i + 1] == objects[..i] + [objects[i]];
          forall n | n in NamesOf(objects[..i + 1]) ensures n in NamesOf(objects[..i]) + {objects[i].name} {
            var j :| 0 <= j < i + 1 && objects[..i + 1][j].name == n;
            if j < i { assert objects[..i][j].name == n; }
          }
          forall n | n in NamesOf(objects[..i]) ensures n in NamesOf(objects[..i + 1]) {
            var j :| 0 <= j < i && objects[..i][j].name == n;
            assert objects[..i + 1][j].name == n;
          }
        }
        selected := selected - {objects[i].name};
        i := i + 1;
      }
      assert objects[..i] == objects;
      var k := IndexOfName(objects, name);
      if k.Some? {
        active := Some(name);
        selected := selected + {name};
      }
    }

    /** `LVCP_OT_LinkObjects.execute`: tag every selected mesh with the instance's collection and
        count them; other selected objects are left alone. */
    method LinkObjects(selection: seq<nat>, collection: Option<string>) returns (count: nat)
      requires Valid() && forall j :: 0 <= j < |selection| ==> selection[j] < |objects|
      requires SelectedNames(objects, selection) == selected
      modifies this
      ensures Valid() && colls == old(colls) && children == old(children)
      ensures selected == old(selected) && active == old(active)
      ensures objects == TagSelected(old(objects), selection, collection)
      ensures count == |Filter(selection, IsMeshAt(old(objects)))|
    {
      ghost var objs := objects;
      count := 0;
      var j := 0;
      while j < |selection|
        invariant 0 <= j <= |selection|
        invariant objects == TagSelected(objs, selection[..j], collection)
        invariant count == |Filter(selection[..j], IsMeshAt(objs))|
        invariant colls == old(colls) && children == old(children)
        invariant selected == old(selected) && active == old(active)
      {
        var k := selection[j];
        TagSelectedStep(objs, selection, j, collection);
        TagSelectedKeeps(objs, selection[..j], collection, k);
        FilterPrefixStep(selection, j, IsMeshAt(objs));
        if objects[k].kind == Mesh {
          objects := objects[k := Tagged(objects[k], collection)];
          count := count + 1;
        }
        j := j + 1;
      }
      assert selection[..j] == selection;
    }

    /** `LVCP_OT_UnlinkObjects.execute`: remove the `lvcp` tag from the object named `objName`
        when one is given (and exists), otherwise from every selected object, counting the objects
        that had it. */
    method UnlinkObjects(objName: string, selection: seq<nat>) returns (count: nat)
      requires Valid() && NoDup(selection) && forall j :: 0 <= j < |selection| ==> selection[j] < |objects|
      requires SelectedNames(objects, selection) == selected
      modifies this
      ensures Valid() && colls == old(colls) && children == old(children)
      ensures selected == old(selected) && active == old(active)
      ensures objects == UntagTargets(old(objects), UnlinkTargets(old(objects), objName, selection))
      ensures count == |Filter(UnlinkTargets(old(objects), objName, selection), IsTaggedAt(old(objects)))|
    {
      ghost var objs := objects;
      var targets := UnlinkTargets(objects, objName, selection);
      count := 0;
      var j := 0;
      while j < |targets|
        invariant 0 <= j <= |targets|
        invariant objects == UntagTargets(objs, targets[..j])
        invariant count == |Filter(targets[..j], IsTaggedAt(objs))|
        invariant colls == old(colls) && children == old(children)
        invariant selected == old(selected) && active == old(active)
      {
        var k := targets[j];
        UntagTargetsStep(objs, targets, j);
        FilterPrefixStep(targets, j, IsTaggedAt(objs));
        assert k !in targets[..j];
        UntagTargetsUntouched(objs, targets[..j], k);
        if PropCol in objects[k].props {
          objects := objects[k := Untagged(objects[k])];
          count := count + 1;
        }
        j := j + 1;
      }
      assert targets[..j] == targets;
    }
  }
}
