/** The Blender 4.5.3 material manager: one button per texture folder applies
    that folder's materials to the selected mesh objects. A folder with more
    than one texture is "multipl": each object keeps its other multipl
    materials, gets one slot per texture, and its polygons cycle through the
    slots. A folder with one texture is "single": each object ends up showing
    the `__SINGLE__` material on every polygon. */
module FolderMaterialManager {
  import opened Text
  import opened Seqs
  import opened TextureFiles
  import opened BlenderData
  import opened MaterialNaming

  // ---------------------------------------------------------------- cleanup

  /** The slot survives a cleanup for the given type prefix: it holds a
      material whose `__SINGLE__` status matches the type. */
  predicate Keeps(slot: Slot, typePrefix: string) {
    && slot.MaterialSlot?
    && ((typePrefix == SinglePrefix && IsSingleName(slot.name))
        || (typePrefix == "" && !IsSingleName(slot.name)))
  }

  /** The slots `cleanup_materials_from_other_types` leaves. */
  function KeptMaterials(slots: seq<Slot>, typePrefix: string): (r: seq<Slot>)
    ensures |r| <= |slots|
  {
    Filter(slots, s => Keeps(s, typePrefix))
  }

  /** A slot is kept exactly when it holds a material of the current type;
      empty slots are dropped. */
  lemma KeptMaterialsMembers(slots: seq<Slot>, typePrefix: string)
    ensures forall s :: s in KeptMaterials(slots, typePrefix) <==>
      s in slots && s.MaterialSlot? &&
      ((typePrefix == SinglePrefix && IsSingleName(s.name)) || (typePrefix == "" && !IsSingleName(s.name)))
    ensures EmptySlot !in KeptMaterials(slots, typePrefix)
  {
  }

  lemma KeptMaterialsStep(slots: seq<Slot>, i: int, typePrefix: string)
    requires 0 <= i < |slots|
    ensures KeptMaterials(slots[..i + 1], typePrefix) ==
      KeptMaterials(slots[..i], typePrefix) + (if Keeps(slots[i], typePrefix) then [slots[i]] else [])
  {
    assert slots[..i + 1][..i] == slots[..i];
  }

  /** `cleanup_materials_from_other_types(obj, current_type_prefix)`. */
  method CleanupMaterialsFromOtherTypes(obj: MeshObject, currentTypePrefix: string)
    modifies obj
    ensures obj.materials == KeptMaterials(old(obj.materials), currentTypePrefix)
    ensures old(obj.materials) == [] ==> obj.materials == []
    ensures obj.polygons == old(obj.polygons)
  {
    if obj.materials == [] {
      return;
    }
    var slots := obj.materials;
    var materialsToKeep: seq<Slot> := [];
    for i := 0 to |slots|
      invariant materialsToKeep == KeptMaterials(slots[..i], currentTypePrefix)
      invariant obj.materials == slots && obj.polygons == old(obj.polygons)
    {
      KeptMaterialsStep(slots, i, currentTypePrefix);
      var mat := slots[i];
      if mat.EmptySlot? {
        continue;
      }
      var isSingle := StartsWith(mat.name, SinglePrefix);
      assert Keeps(mat, currentTypePrefix) <==>
        (currentTypePrefix == SinglePrefix && isSingle) || (currentTypePrefix == "" && !isSingle);
      if currentTypePrefix == SinglePrefix && isSingle {
        materialsToKeep := materialsToKeep + [mat];
      } else if currentTypePrefix == "" && !isSingle {
        materialsToKeep := materialsToKeep + [mat];
      }
    }
    assert slots[..|slots|] == slots;
    obj.materials := [];
    for j := 0 to |materialsToKeep|
      invariant obj.materials == materialsToKeep[..j]
      invariant obj.polygons == old(obj.polygons)
    {
      assert materialsToKeep[..j + 1] == materialsToKeep[..j] + [materialsToKeep[j]];
      obj.materials := obj.materials + [materialsToKeep[j]];
    }
    assert materialsToKeep[..|materialsToKeep|] == materialsToKeep;
  }

  /** The cleanup keeps the relative order: cleaning a concatenation cleans each part. */
  lemma KeptMaterialsConcat(a: seq<Slot>, b: seq<Slot>, typePrefix: string)
    ensures KeptMaterials(a + b, typePrefix) == KeptMaterials(a, typePrefix) + KeptMaterials(b, typePrefix)
  {
    FilterConcat(a, b, s => Keeps(s, typePrefix));
  }

  /** A second cleanup for the same type changes nothing. */
  lemma {:induction false} KeptMaterialsIdempotent(slots: seq<Slot>, typePrefix: string)
    ensures KeptMaterials(KeptMaterials(slots, typePrefix), typePrefix) == KeptMaterials(slots, typePrefix)
    decreases |slots|
  {
    if slots != [] {
      var init, last := slots[..|slots| - 1], slots[|slots| - 1];
      assert slots == init + [last];
      KeptMaterialsIdempotent(init, typePrefix);
      KeptMaterialsConcat(KeptMaterials(init, typePrefix), KeptMaterials([last], typePrefix), typePrefix);
      assert KeptMaterials([last], typePrefix) == Filter([last], s => Keeps(s, typePrefix));
      assert [last][..0] == [];
    }
  }

  /** The number of slots that hold a material. */
  function MaterialCount(slots: seq<Slot>): nat
    decreases |slots|
  {
    if slots == [] then 0
    else MaterialCount(slots[..|slots| - 1]) + (if slots[|slots| - 1].MaterialSlot? then 1 else 0)
  }

  /** The two cleanups split an object's materials: each material is kept by
      exactly one of them. */
  lemma {:induction false} KeptMaterialsPartition(slots: seq<Slot>)
    ensures |KeptMaterials(slots, "")| + |KeptMaterials(slots, SinglePrefix)| == MaterialCount(slots)
    decreases |slots|
  {
    if slots != [] {
      var init := slots[..|slots| - 1];
      KeptMaterialsPartition(init);
      assert KeptMaterials(slots, "") == Filter(slots, s => Keeps(s, ""));
      assert KeptMaterials(slots, SinglePrefix) == Filter(slots, s => Keeps(s, SinglePrefix));
      assert Filter(slots, s => Keeps(s, "")) ==
        Filter(init, s => Keeps(s, "")) + (if Keeps(slots[|slots| - 1], "") then [slots[|slots| - 1]] else []);
      assert Filter(slots, s => Keeps(s, SinglePrefix)) ==
        Filter(init, s => Keeps(s, SinglePrefix)) + (if Keeps(slots[|slots| - 1], SinglePrefix) then [slots[|slots| - 1]] else []);
    }
  }

  // ---------------------------------------------------------------- apply folder

  /** `is_multipl`: more than one texture file. */
  predicate IsMultipl(files: seq<FileName>) {
    |files| > 1
  }

  /** An object's slots after the apply loop, for a non-empty plan. */
  function AppliedSlots(slots: seq<Slot>, isMultipl: bool, plan: seq<string>): (r: seq<Slot>)
    requires plan != []
    ensures |r| > 0
  {
    if isMultipl then KeptMaterials(slots, "") + SlotsOf(plan)
    else
      var kept := KeptMaterials(slots, SinglePrefix);
      if kept == [] || kept[0] != MaterialSlot(plan[0]) then [MaterialSlot(plan[0])] else kept
  }

  /** An object's polygon indices after the apply loop, given its new slot count. */
  function AppliedPolygons(polygons: seq<nat>, isMultipl: bool, slotCount: nat): seq<nat>
    requires slotCount > 0
  {
    if isMultipl then (if |polygons| > 0 then CyclicIndices(|polygons|, slotCount) else polygons)
    else Zeros(|polygons|)
  }

  /** In multipl mode the object keeps its own multipl materials in order and
      then gets the plan's materials in plan order. */
  lemma MultiplSlotsLayout(slots: seq<Slot>, plan: seq<string>)
    requires plan != []
    ensures var r := AppliedSlots(slots, true, plan);
      var kept := KeptMaterials(slots, "");
      && |r| == |kept| + |plan|
      && r[..|kept|] == kept
      && (forall k :: 0 <= k < |plan| ==> r[|kept| + k] == MaterialSlot(plan[k]))
      && (forall s :: s in r ==> s.MaterialSlot?)
  {
  }

  /** In single mode slot 0 is the chosen material and every slot is a single material. */
  lemma SingleSlotsLayout(slots: seq<Slot>, plan: seq<string>)
    requires plan != [] && IsSingleName(plan[0])
    ensures var r := AppliedSlots(slots, false, plan);
      && r[0] == MaterialSlot(plan[0])
      && (forall s :: s in r ==> s.MaterialSlot? && IsSingleName(s.name))
  {
  }

  /** After the apply every polygon index names an existing slot; in single
      mode every index is 0, in multipl mode slot k gets its fair share. */
  lemma AppliedIndicesInRange(polygons: seq<nat>, isMultipl: bool, slotCount: nat)
    requires slotCount > 0
    ensures |AppliedPolygons(polygons, isMultipl, slotCount)| == |polygons|
    ensures forall k :: 0 <= k < |polygons| ==> AppliedPolygons(polygons, isMultipl, slotCount)[k] < slotCount
    ensures !isMultipl ==> forall k :: 0 <= k < |polygons| ==> AppliedPolygons(polygons, isMultipl, slotCount)[k] == 0
  {
    if isMultipl && |polygons| > 0 {
      CyclicIndicesInRange(|polygons|, slotCount);
    }
  }

  /** One object's state after the apply, from its state before. */
  predicate AppliedTo(materials: seq<Slot>, polygons: seq<nat>, oldMaterials: seq<Slot>, oldPolygons: seq<nat>,
                      isMultipl: bool, plan: seq<string>)
    requires plan != []
  {
    && materials == AppliedSlots(oldMaterials, isMultipl, plan)
    && polygons == AppliedPolygons(oldPolygons, isMultipl, |materials|)
  }

  /** The body of the per-object loop of `MATERIAL_OT_apply_folder.execute`. */
  method ApplyToObject(obj: MeshObject, isMultipl: bool, materialsToApply: seq<string>)
    requires materialsToApply != []
    modifies obj
    ensures AppliedTo(obj.materials, obj.polygons, old(obj.materials), old(obj.polygons), isMultipl, materialsToApply)
  {
    CleanupMaterialsFromOtherTypes(obj, Prefix(isMultipl));
    if isMultipl {
      var kept := obj.materials;
      for j := 0 to |materialsToApply|
        invariant obj.materials == kept + SlotsOf(materialsToApply[..j])
        invariant obj.polygons == old(obj.polygons)
      {
        obj.materials := obj.materials + [MaterialSlot(materialsToApply[j])];
      }
      assert materialsToApply[..|materialsToApply|] == materialsToApply;
      DistributeCyclically(obj);
    } else {
      var material := MaterialSlot(materialsToApply[0]);
      if obj.materials == [] || obj.materials[0] != material {
        obj.materials := [];
        obj.materials := obj.materials + [material];
      }
      AssignFirstSlot(obj);
    }
  }

  /** The loop over the selected objects. */
  method ApplyToObjects(objects: seq<MeshObject>, isMultipl: bool, materialsToApply: seq<string>)
    requires DistinctObjects(objects) && materialsToApply != []
    modifies set o | o in objects
    ensures forall k :: 0 <= k < |objects| ==>
      AppliedTo(objects[k].materials, objects[k].polygons, old(objects[k].materials), old(objects[k].polygons),
                isMultipl, materialsToApply)
  {
    for i := 0 to |objects|
      invariant forall k :: 0 <= k < i ==>
        AppliedTo(objects[k].materials, objects[k].polygons, old(objects[k].materials), old(objects[k].polygons),
                  isMultipl, materialsToApply)
      invariant forall k :: i <= k < |objects| ==>
        objects[k].materials == old(objects[k].materials) && objects[k].polygons == old(objects[k].polygons)
    {
      var obj := objects[i];
      assert forall k :: 0 <= k < |objects| && k != i ==> objects[k] != obj;
      ApplyToObject(obj, isMultipl, materialsToApply);
    }
  }

  /** Why `MATERIAL_OT_apply_folder.execute` cancels, checked in this order:
      no mesh selected, missing folder, no texture files, no material made. */
  predicate ApplyFolderCancels(objectCount: nat, folderExists: bool, files: seq<FileName>, plan: seq<string>) {
    objectCount == 0 || !folderExists || files == [] || plan == []
  }

  /** `MATERIAL_OT_apply_folder.execute` for the folder with this listing.
      `imageLoads` says which images `bpy.data.images.load` accepts. */
  method ApplyFolder(objects: seq<MeshObject>, folderExists: bool, listing: seq<Entry>, foldsCase: bool,
                     imageLoads: FileName -> bool)
    returns (result: OperatorResult, materialsToApply: seq<string>, created: set<string>)
    requires DistinctObjects(objects)
    modifies set o | o in objects
    ensures var files := TextureFilesOf(listing, foldsCase);
      var plan := Plan(files, IsMultipl(files), imageLoads);
      && (result == Cancelled <==> ApplyFolderCancels(|objects|, folderExists, files, plan))
      && (result == Finished ==> materialsToApply == plan)
      && (created == if |objects| > 0 && folderExists && files != [] then RecordedNames(files, IsMultipl(files)) else {})
    ensures result == Cancelled ==> materialsToApply == []
    ensures result == Cancelled ==>
      forall o :: o in objects ==> o.materials == old(o.materials) && o.polygons == old(o.polygons)
    ensures result == Finished ==> forall k :: 0 <= k < |objects| ==>
      AppliedTo(objects[k].materials, objects[k].polygons, old(objects[k].materials), old(objects[k].polygons),
                IsMultipl(TextureFilesOf(listing, foldsCase)), materialsToApply)
  {
    materialsToApply, created := [], {};
    if |objects| == 0 {
      return Cancelled, materialsToApply, created;
    }
    if !folderExists {
      return Cancelled, materialsToApply, created;
    }
    var textureFiles := GetTextureFiles(listing, foldsCase);
    if textureFiles == [] {
      return Cancelled, materialsToApply, created;
    }
    var isMultipl := |textureFiles| > 1;
    var seen;
    materialsToApply, seen := PlanMaterials(textureFiles, isMultipl, imageLoads);
    created := seen.Keys;
    if materialsToApply == [] {
      return Cancelled, materialsToApply, created;
    }
    ApplyToObjects(objects, isMultipl, materialsToApply);
    result := Finished;
  }

  /** Applying the multipl folder `__SINGLE_.jpg`, `__SINGLE_.png` makes the
      slots `__SINGLE_` and `__SINGLE__png` (`PrefixLikeRenamedIsSingle`); the
      second is a single-type material, so the next multipl cleanup drops it. */
  lemma PrefixLikeMaterialDropped()
    ensures KeptMaterials([MaterialSlot("__SINGLE_"), MaterialSlot("__SINGLE__png")], "") == [MaterialSlot("__SINGLE_")]
  {
    PrefixLikeNames();
    var slots := [MaterialSlot("__SINGLE_"), MaterialSlot("__SINGLE__png")];
    KeptMaterialsStep(slots, 0, "");
    KeptMaterialsStep(slots, 1, "");
    assert slots[..0] == [] && slots[..2] == slots;
  }

  /** A single folder yields the one material `__SINGLE__` + stem of its texture. */
  lemma SingleFolderMaterial(listing: seq<Entry>, foldsCase: bool, imageLoads: FileName -> bool)
    requires |TextureFilesOf(listing, foldsCase)| == 1
    ensures var f := TextureFilesOf(listing, foldsCase)[0];
      Plan(TextureFilesOf(listing, foldsCase), false, imageLoads) == if imageLoads(f) then [SinglePrefix + f.stem] else []
  {
    var files := TextureFilesOf(listing, foldsCase);
    assert files == [files[0]];
    SingleFilePlan(files[0], imageLoads);
  }

  // ---------------------------------------------------------------- export

  /** The names of the materials in a slot list. */
  function SlotNames(slots: seq<Slot>): set<string> {
    set s | s in slots && s.MaterialSlot? :: s.name
  }

  /** `used_materials`: the names of the materials on the selected objects. */
  function UsedMaterials(objects: seq<MeshObject>): (r: set<string>)
    reads set o | o in objects
    ensures forall n :: n in r <==> exists k :: 0 <= k < |objects| && MaterialSlot(n) in objects[k].materials
    decreases |objects|
  {
    if objects == [] then {}
    else
      var last := objects[|objects| - 1];
      UsedMaterials(objects[..|objects| - 1]) + SlotNames(last.materials)
  }

  /** The keyword arguments of the first export call. */
  function FullExportParams(filepath: string): ExportParams {
    map["filepath" := Text(filepath), "export_format" := Text("GLB"),
        "use_selection" := Flag(true), "export_materials" := Text("EXPORT")]
  }

  /** The arguments of the retry after a `TypeError`: without the selection and
      material options. */
  function ReducedExportParams(filepath: string): (r: ExportParams)
    ensures r.Keys == FullExportParams(filepath).Keys - {"use_selection", "export_materials"}
    ensures forall k :: k in r ==> r[k] == FullExportParams(filepath)[k]
  {
    map["filepath" := Text(filepath), "export_format" := Text("GLB")]
  }

  /** `MATERIAL_OT_export_glb.execute`. `allMaterials` is `bpy.data.materials.keys()`;
      `exporter` stands for `bpy.ops.export_scene.gltf` and says how a call with
      the given arguments ends. */
  method ExportGlb(objects: seq<MeshObject>, allMaterials: set<string>, filepath: string,
                   exporter: ExportParams -> ExportOutcome)
    returns (result: OperatorResult, used: set<string>, unused: set<string>, attempts: seq<ExportParams>)
    ensures objects == [] ==> result == Cancelled && attempts == [] && used == {} && unused == {}
    ensures objects != [] ==> used == UsedMaterials(objects) && unused == allMaterials - used
    ensures unused !! used && unused <= allMaterials
    ensures objects != [] && used <= allMaterials ==> used + unused == allMaterials
    ensures objects != [] ==> |attempts| >= 1 && attempts[0] == FullExportParams(filepath)
    ensures objects != [] && exporter(FullExportParams(filepath)) == Exported ==>
      result == Finished && |attempts| == 1
    ensures objects != [] && exporter(FullExportParams(filepath)) == OtherErrorRaised ==>
      result == Cancelled && |attempts| == 1
    ensures objects != [] && exporter(FullExportParams(filepath)) == TypeErrorRaised ==>
      && attempts == [FullExportParams(filepath), ReducedExportParams(filepath)]
      && (result == Finished <==> exporter(ReducedExportParams(filepath)) == Exported)
  {
    used, unused, attempts := {}, {}, [];
    if objects == [] {
      return Cancelled, used, unused, attempts;
    }
    for i := 0 to |objects|
      invariant used == UsedMaterials(objects[..i])
    {
      var obj := objects[i];
      assert objects[..i + 1][..i] == objects[..i];
      var names: set<string> := {};
      for j := 0 to |obj.materials|
        invariant names == SlotNames(obj.materials[..j])
      {
        assert obj.materials[..j + 1] == obj.materials[..j] + [obj.materials[j]];
        if obj.materials[j].MaterialSlot? {
          names := names + {obj.materials[j].name};
        }
      }
      assert obj.materials[..|obj.materials|] == obj.materials;
      used := used + names;
    }
    assert objects[..|objects|] == objects;
    unused := allMaterials - used;
    var exportParams := FullExportParams(filepath);
    attempts := [exportParams];
    var outcome := exporter(exportParams);
    if outcome == Exported {
      return Finished, used, unused, attempts;
    } else if outcome == TypeErrorRaised {
      exportParams := exportParams - {"use_selection"};
      if "export_materials" in exportParams {
        exportParams := exportParams - {"export_materials"};
      }
      assert exportParams == ReducedExportParams(filepath);
      attempts := attempts + [exportParams];
      if exporter(exportParams) == Exported {
        return Finished, used, unused, attempts;
      }
      return Cancelled, used, unused, attempts;
    }
    return Cancelled, used, unused, attempts;
  }

  // ---------------------------------------------------------------- clear

  /** How many of the slot lists hold at least one slot. */
  function NonEmptyCount(slotLists: seq<seq<Slot>>): (r: nat)
    ensures r <= |slotLists|
    decreases |slotLists|
  {
    if slotLists == [] then 0
    else NonEmptyCount(slotLists[..|slotLists| - 1]) + (if slotLists[|slotLists| - 1] != [] then 1 else 0)
  }

  function MaterialsOf(objects: seq<MeshObject>): (r: seq<seq<Slot>>)
    reads set o | o in objects
    ensures |r| == |objects|
    ensures forall k :: 0 <= k < |objects| ==> r[k] == objects[k].materials
    decreases |objects|
  {
    if objects == [] then []
    else MaterialsOf(objects[..|objects| - 1]) + [objects[|objects| - 1].materials]
  }

  /** `MATERIAL_OT_clear_materials.execute`: empties every selected object's
      slot list and counts the objects that had any. */
  method ClearMaterials(objects: seq<MeshObject>) returns (result: OperatorResult, clearedCount: nat)
    requires DistinctObjects(objects)
    modifies set o | o in objects
    ensures objects == [] <==> result == Cancelled
    ensures objects != [] ==> forall o :: o in objects ==> o.materials == []
    ensures forall o :: o in objects ==> o.polygons == old(o.polygons)
    ensures clearedCount == NonEmptyCount(old(MaterialsOf(objects)))
  {
    clearedCount := 0;
    if objects == [] {
      return Cancelled, clearedCount;
    }
    ghost var before := MaterialsOf(objects);
    for i := 0 to |objects|
      invariant clearedCount == NonEmptyCount(before[..i])
      invariant forall k :: 0 <= k < i ==> objects[k].materials == []
      invariant forall k :: i <= k < |objects| ==> objects[k].materials == before[k]
      invariant forall o :: o in objects ==> o.polygons == old(o.polygons)
    {
      assert before[..i + 1][..i] == before[..i];
      var obj := objects[i];
      if obj.materials != [] {
        obj.materials := [];
        clearedCount := clearedCount + 1;
      }
    }
    assert before[..|objects|] == before;
    result := Finished;
  }
}
