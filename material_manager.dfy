/** The earlier Blender material manager: two fixed folders, "multiple" and
    "single". Apply Multiple replaces every selected object's materials with one
    material per texture of the multiple folder and cycles the polygons through
    them; Apply Single replaces them with the one `__SINGLE__` material made
    from a texture of the single folder. Export GLB tries four argument sets
    for the glTF exporter in turn. */
module MaterialManager {
  import opened Text
  import opened Seqs
  import opened TextureFiles
  import opened BlenderData
  import opened MaterialNaming

  // ---------------------------------------------------------------- apply multiple

  /** Why `MATERIAL_OT_apply_multiple.execute` cancels, checked in this order. */
  predicate ApplyMultipleCancels(objectCount: nat, folderExists: bool, files: seq<FileName>, plan: seq<string>) {
    objectCount == 0 || !folderExists || files == [] || plan == []
  }

  /** One object after Apply Multiple: exactly the planned materials, in plan
      order, and polygons cycling through them. */
  predicate MultipleApplied(materials: seq<Slot>, polygons: seq<nat>, oldPolygons: seq<nat>, plan: seq<string>)
    requires plan != []
  {
    && materials == SlotsOf(plan)
    && polygons == (if |oldPolygons| > 0 then CyclicIndices(|oldPolygons|, |plan|) else oldPolygons)
  }

  /** The per-object body of `MATERIAL_OT_apply_multiple.execute`. */
  method ReplaceWithMultiple(obj: MeshObject, materialsToApply: seq<string>)
    requires materialsToApply != []
    modifies obj
    ensures MultipleApplied(obj.materials, obj.polygons, old(obj.polygons), materialsToApply)
  {
    obj.materials := [];
    for j := 0 to |materialsToApply|
      invariant obj.materials == SlotsOf(materialsToApply[..j])
      invariant obj.polygons == old(obj.polygons)
    {
      obj.materials := obj.materials + [MaterialSlot(materialsToApply[j])];
    }
    assert materialsToApply[..|materialsToApply|] == materialsToApply;
    DistributeCyclically(obj);
  }

  /** `MATERIAL_OT_apply_multiple.execute` on the multiple folder with this listing. */
  method ApplyMultiple(objects: seq<MeshObject>, folderExists: bool, listing: seq<Entry>, foldsCase: bool,
                       imageLoads: FileName -> bool)
    returns (result: OperatorResult, materialsToApply: seq<string>, created: set<string>)
    requires DistinctObjects(objects)
    modifies set o | o in objects
    ensures var files := TextureFilesOf(listing, foldsCase);
      && (result == Cancelled <==> ApplyMultipleCancels(|objects|, folderExists, files, Plan(files, true, imageLoads)))
      && (result == Finished ==> materialsToApply == Plan(files, true, imageLoads))
      && (created == if |objects| > 0 && folderExists && files != [] then RecordedNames(files, true) else {})
    ensures result == Cancelled ==>
      forall o :: o in objects ==> o.materials == old(o.materials) && o.polygons == old(o.polygons)
    ensures result == Finished ==> materialsToApply != [] && forall k :: 0 <= k < |objects| ==>
      MultipleApplied(objects[k].materials, objects[k].polygons, old(objects[k].polygons), materialsToApply)
  {
    materialsToApply, created := [], {};
    if |objects| == 0 {
      return Cancelled, materialsToApply, created;
    }
    if !folderExists {
      return Cancelled, materialsToApply, created;
    }
    var textureFiles := GetTextureFiles(listing, foldsCase);
    if textureFiles == [] {
      return Cancelled, materialsToApply, created;
    }
    var seen;
    materialsToApply, seen := PlanMaterials(textureFiles, true, imageLoads);
    created := seen.Keys;
    if materialsToApply == [] {
      return Cancelled, materialsToApply, created;
    }
    for i := 0 to |objects|
      invariant forall k :: 0 <= k < i ==>
        MultipleApplied(objects[k].materials, objects[k].polygons, old(objects[k].polygons), materialsToApply)
      invariant forall k :: i <= k < |objects| ==>
        objects[k].materials == old(objects[k].materials) && objects[k].polygons == old(objects[k].polygons)
    {
      var obj := objects[i];
      assert forall k :: 0 <= k < |objects| && k != i ==> objects[k] != obj;
      ReplaceWithMultiple(obj, materialsToApply);
    }
    result := Finished;
  }

  /** After Apply Multiple no two slots of an object hold the same material,
      and every polygon index names one of its slots. */
  lemma MultipleAppliedWellFormed(listing: seq<Entry>, foldsCase: bool, imageLoads: FileName -> bool,
                                  materials: seq<Slot>, polygons: seq<nat>, oldPolygons: seq<nat>)
    requires Plan(TextureFilesOf(listing, foldsCase), true, imageLoads) != []
    requires MultipleApplied(materials, polygons, oldPolygons, Plan(TextureFilesOf(listing, foldsCase), true, imageLoads))
    ensures NoDuplicates(materials)
    ensures forall k :: 0 <= k < |polygons| ==> polygons[k] < |materials|
  {
    var plan := Plan(TextureFilesOf(listing, foldsCase), true, imageLoads);
    PlanForFolderDistinct(listing, foldsCase, true, imageLoads);
    if |oldPolygons| > 0 {
      CyclicIndicesInRange(|oldPolygons|, |plan|);
    }
  }

  // ---------------------------------------------------------------- apply single

  /** The texture files of the single folder: the extension loop and
      `list(set(...))`, without sorting. */
  method CollectSingleTextures(listing: seq<Entry>, foldsCase: bool) returns (textureFiles: seq<FileName>)
    ensures textureFiles == Dedupe(GlobAll(listing, SupportedExtensions, foldsCase))
    ensures NoDuplicates(textureFiles)
    ensures forall f :: f in textureFiles <==> File(f) in listing && IsTextureSuffix(f.suffix, foldsCase)
    ensures textureFiles == [] <==> TextureFilesOf(listing, foldsCase) == []
  {
    var found := GlobSupported(listing, foldsCase);
    textureFiles := Dedupe(found);
    forall f
      ensures f in textureFiles <==> File(f) in listing && IsTextureSuffix(f.suffix, foldsCase)
    {
      GlobAllMembers(listing, SupportedExtensions, foldsCase, f);
      SuffixMatchesSomeExtension(f, foldsCase);
    }
    TextureFilesSpec(listing, foldsCase);
    if textureFiles != [] {
      assert textureFiles[0] in TextureFilesOf(listing, foldsCase);
    }
    if TextureFilesOf(listing, foldsCase) != [] {
      assert TextureFilesOf(listing, foldsCase)[0] in textureFiles;
    }
  }

  /** The texture files of the folder, then one of them, taken from the set
      in whatever order it yields. */
  method PickSingleTexture(listing: seq<Entry>, foldsCase: bool) returns (found: bool, textureFile: FileName)
    ensures found <==> TextureFilesOf(listing, foldsCase) != []
    ensures found ==> File(textureFile) in listing && IsTextureSuffix(textureFile.suffix, foldsCase)
  {
    var textureFiles := CollectSingleTextures(listing, foldsCase);
    if textureFiles == [] {
      return false, FileName("", "");
    }
    assert textureFiles[0] in textureFiles;
    textureFile :| textureFile in textureFiles;
    found := true;
  }

  /** The object loop of `MATERIAL_OT_apply_single.execute`. */
  method ReplaceWithSingle(objects: seq<MeshObject>, materialName: string)
    requires DistinctObjects(objects)
    modifies set o | o in objects
    ensures forall k :: 0 <= k < |objects| ==>
      objects[k].materials == [MaterialSlot(materialName)] && objects[k].polygons == Zeros(|old(objects[k].polygons)|)
  {
    for i := 0 to |objects|
      invariant forall k :: 0 <= k < i ==>
        objects[k].materials == [MaterialSlot(materialName)] && objects[k].polygons == Zeros(|old(objects[k].polygons)|)
      invariant forall k :: i <= k < |objects| ==>
        objects[k].materials == old(objects[k].materials) && objects[k].polygons == old(objects[k].polygons)
    {
      var obj := objects[i];
      assert forall k :: 0 <= k < |objects| && k != i ==> objects[k] != obj;
      obj.materials := [];
      obj.materials := obj.materials + [MaterialSlot(materialName)];
      AssignFirstSlot(obj);
    }
  }

  /** `MATERIAL_OT_apply_single.execute` on the single folder with this listing.
      The files are deduplicated through a Python set and not sorted, so which
      one is `texture_files[0]` is up to the set's iteration order: the model
      picks any of them and returns it as `textureFile`. */
  method ApplySingle(objects: seq<MeshObject>, folderExists: bool, listing: seq<Entry>, foldsCase: bool,
                     imageLoads: FileName -> bool)
    returns (result: OperatorResult, textureFile: FileName, materialName: string, created: set<string>)
    requires DistinctObjects(objects)
    modifies set o | o in objects
    ensures var found := objects != [] && folderExists && TextureFilesOf(listing, foldsCase) != [];
      && (found ==> File(textureFile) in listing && IsTextureSuffix(textureFile.suffix, foldsCase))
      && (result == Finished <==> found && imageLoads(textureFile))
      && (found ==> materialName == SinglePrefix + textureFile.stem)
      && (created == if found then {SinglePrefix + textureFile.stem} else {})
    ensures result == Cancelled ==>
      forall o :: o in objects ==> o.materials == old(o.materials) && o.polygons == old(o.polygons)
    ensures result == Finished ==> forall k :: 0 <= k < |objects| ==>
      objects[k].materials == [MaterialSlot(materialName)] && objects[k].polygons == Zeros(|old(objects[k].polygons)|)
  {
    textureFile, materialName, created := FileName("", ""), "", {};
    if |objects| == 0 {
      return Cancelled, textureFile, materialName, created;
    }
    if !folderExists {
      return Cancelled, textureFile, materialName, created;
    }
    var found;
    found, textureFile := PickSingleTexture(listing, foldsCase);
    if !found {
      return Cancelled, textureFile, materialName, created;
    }
    materialName := SinglePrefix + textureFile.stem;
    created := {materialName};
    if !imageLoads(textureFile) {
      return Cancelled, textureFile, materialName, created;
    }
    ReplaceWithSingle(objects, materialName);
    result := Finished;
  }

  /** The single material is always recognisable as single, so the later
      script's cleanup for single mode keeps it. */
  lemma SingleMaterialIsSingle(stem: string)
    ensures IsSingleName(SinglePrefix + stem)
    ensures (SinglePrefix + stem)[|SinglePrefix|..] == stem
  {
    assert (SinglePrefix + stem)[..|SinglePrefix|] == SinglePrefix;
  }

  // ---------------------------------------------------------------- export

  /** `export_attempts`, in the order they are tried. */
  function ExportAttempts(filepath: string): (r: seq<ExportParams>)
    ensures |r| == 4
    ensures forall k :: 0 <= k < 4 ==>
      && "filepath" in r[k] && r[k]["filepath"] == Text(filepath)
      && "export_format" in r[k] && r[k]["export_format"] == Text("GLB")
  {
    [ map["filepath" := Text(filepath), "export_format" := Text("GLB"), "use_selection" := Flag(true),
          "export_materials" := Text("EXPORT"), "export_normals" := Flag(true)],
      map["filepath" := Text(filepath), "export_format" := Text("GLB"), "export_selected" := Flag(true),
          "export_materials" := Text("EXPORT"), "export_normals" := Flag(true)],
      map["filepath" := Text(filepath), "export_format" := Text("GLB"), "export_materials" := Text("EXPORT")],
      map["filepath" := Text(filepath), "export_format" := Text("GLB")] ]
  }

  predicate SomeAttemptSucceeds(filepath: string, exporter: ExportParams -> ExportOutcome) {
    exists k :: 0 <= k < 4 && exporter(ExportAttempts(filepath)[k]) == Exported
  }

  /** `MATERIAL_OT_export_glb.execute`: the attempts are made in order until one
      succeeds; a `TypeError` and any other error are handled alike. */
  method ExportGlb(objects: seq<MeshObject>, filepath: string, exporter: ExportParams -> ExportOutcome)
    returns (result: OperatorResult, attempts: seq<ExportParams>)
    ensures objects == [] ==> result == Cancelled && attempts == []
    ensures objects != [] ==> 1 <= |attempts| <= 4 && attempts == ExportAttempts(filepath)[..|attempts|]
    ensures forall k :: 0 <= k < |attempts| - 1 ==> exporter(attempts[k]) != Exported
    ensures objects != [] ==> (result == Finished <==> exporter(attempts[|attempts| - 1]) == Exported)
    ensures result == Cancelled && objects != [] ==> |attempts| == 4
    ensures objects != [] ==> (result == Finished <==> SomeAttemptSucceeds(filepath, exporter))
  {
    attempts := [];
    if objects == [] {
      return Cancelled, attempts;
    }
    var exportAttempts := ExportAttempts(filepath);
    for i := 0 to |exportAttempts|
      invariant i < |exportAttempts|
      invariant attempts == exportAttempts[..i]
      invariant forall k :: 0 <= k < i ==> exporter(exportAttempts[k]) != Exported
    {
      var params := exportAttempts[i];
      attempts := attempts + [params];
      assert exportAttempts[..i + 1] == attempts;
      if exporter(params) == Exported {
        return Finished, attempts;
      }
      if i + 1 < |exportAttempts| {
        continue;
      }
      return Cancelled, attempts;
    }
    // The source's trailing `return {'FINISHED'}` after the loop is never reached.
    assert false;
  }
}
