# Material manager, model statistics and viewer store — a Dafny model

This project models the logic at the heart of a small 3D model viewer and its
two Blender helper scripts:

- **The Blender material managers.** There are two scripts: the 4.5.3 one,
  with one button per texture folder, and the earlier one, with fixed
  "multiple" and "single" folders. Both find the texture images in a folder.
  They make one material per image, naming it after the file and renaming a
  repeated name. They put the materials on the selected mesh objects. In
  "multipl" mode the polygons cycle through the slots; in "single" mode a
  `__SINGLE__` material covers every polygon. They also export the selection
  as GLB, trying several exporter argument sets in turn, and the 4.5.3 script
  can clear an object's materials.
- **`calculateModelStatistics`.** One pre-order walk over a three.js object
  tree counts meshes, vertices, faces and bones. It also collects the
  distinct materials, and the distinct textures found in twelve material
  properties.
- **The model store** (a Redux slice): the catalogue of models, the selected
  model and texture, and the loading and error flags, with one reducer per
  field.
- **Texture navigation**: "next" and "previous" step through five preset
  textures, wrapping around at both ends.
- **Swipe gestures**: a touch that ends far enough sideways, and moved more
  sideways than vertically, fires the left or right callback.

The model has these parts:

- **Stateful code becomes classes.**
  - A Blender mesh object is `BlenderData.MeshObject`, whose material slots
    and polygon indices the operators update in place.
  - The store is `ModelSlice.ModelStore`.
  - The hook's four refs are the fields of `SwipeGestures.SwipeHandler`.
- **Each loop of the source is a method.** Every such method is proved
  against a specification function: `TextureFilesOf`, `Plan`, `KeptMaterials`,
  `AppliedSlots`, `TallyOf`, `Classify`, `Next`.
- **Properties of those functions are separate lemmas.** They cover distinct
  material names, idempotent cleanup, balanced polygon distribution, the
  inverse steps of texture navigation, and the symmetry of swipe
  classification.

Filesystem listings, image loading and the glTF exporter are inputs. A
listing is a `seq<Entry>`. Image loading is a predicate `imageLoads`. The
exporter is a function from argument maps to outcomes. pathlib's glob folds
case on Windows, where the scripts' hard-coded folders live, so case folding
is a parameter `foldsCase`.

## Model

| member | source | states |
|---|---|---|
| TextureFiles.Files | blender/blender_453_material_manager.py:66-67 | a file is in the result exactly when the listing holds it as a regular file |
| TextureFiles.GlobSupported | blender/blender_453_material_manager.py:94-96 | the extension loop (each extension in lower and in upper case) yields exactly the specification `GlobAll` over the six supported extensions |
| TextureFiles.MatchesSomeStep | blender/blender_453_material_manager.py:94-96 | matching one of a list of extensions is matching the first or one of the rest |
| TextureFiles.GlobAllMembers | blender/blender_453_material_manager.py:94-96 | a file is collected exactly when it is a regular file of the listing matching one extension's pattern |
| TextureFiles.SuffixMatchesSomeExtension | blender/blender_453_material_manager.py:92-96 | matching `*.ext` or `*.EXT` for one of the six extensions is the same as the suffix being a supported extension |
| TextureFiles.TextureFilesSpec | blender/blender_453_material_manager.py:86-103 | `get_texture_files` returns exactly the texture files of the folder, without repeats, sorted by lower-cased name |
| TextureFiles.GetTextureFiles | blender/blender_453_material_manager.py:86-103 | the method's result is `TextureFilesOf` of the listing |
| TextureFiles.Candidates | blender/blender_453_material_manager.py:59-78 | a folder row is produced exactly for a sub-folder with at least one image, counting distinct lower-cased file names |
| TextureFiles.TextureNamesStep | blender/blender_453_material_manager.py:65-72 | the name set of a longer listing adds the next entry's lower-cased name exactly when it is an image file |
| TextureFiles.ScanTextureFolders | blender/blender_453_material_manager.py:45-83 | no rows for a missing root; otherwise exactly the image-holding sub-folders with their counts, sorted by lower-cased name |
| Seqs.Dedupe | blender/blender_453_material_manager.py:98-99 | `list(set(...))` keeps every element once: same members, no repeats, never longer |
| Seqs.SortBy | blender/blender_453_material_manager.py:101 | `sort(key=...)` yields a sorted permutation of its input |
| Seqs.Filter | blender/blender_453_material_manager.py:117-128 | filtering keeps exactly the members that satisfy the test and never lengthens |
| Seqs.FilterConcat | blender/blender_453_material_manager.py:117-128 | filtering a concatenation filters each part, keeping order |
| MaterialNaming.Prefix | blender/blender_453_material_manager.py:174-175 | no prefix for multipl materials, `__SINGLE__` for single ones |
| MaterialNaming.RecordedNamesStep | blender/blender_453_material_manager.py:195-200 | under the repaired rule, the seen-map after one more file adds the name that file is given, unless the file is skipped |
| MaterialNaming.PlanStep | blender/blender_453_material_manager.py:181-240 | the plan after one more file appends that file's name exactly when it is not skipped and its image loads |
| MaterialNaming.PlanMaterials | blender/blender_453_material_manager.py:177-241 | the naming loop under the repaired rule yields `Plan`; the seen-map keys are the names handed out; every stored value is a file name |
| MaterialNaming.TextureSuffixIsDotted | blender/blender_453_material_manager.py:92 | every supported suffix starts with a dot and holds no underscore |
| MaterialNaming.RenamedStemSortsAfter | blender/blender_453_material_manager.py:101 | a file named `stem_ext…` sorts strictly after `stem.ext`, so it comes later in the loop |
| MaterialNaming.BaseIsNotRenamed | blender/blender_453_material_manager.py:184-198 | an earlier file's base name is never a later file's renamed name |
| MaterialNaming.RenamedIsInjective | blender/blender_453_material_manager.py:198 | two files with dotted suffixes share a renamed name only if they are the same file |
| MaterialNaming.LongerTailHoldsSeparator | blender/blender_453_material_manager.py:198 | two splits of a string at an underscore with tails of different lengths put an underscore in the longer tail |
| MaterialNaming.SplitAtUnderscore | blender/blender_453_material_manager.py:198 | splitting `stem_ext` at its last underscore is unique when the tails have none |
| MaterialNaming.LowerAroundSeparator | blender/blender_453_material_manager.py:101 | lower-casing passes over `.` and `_` unchanged |
| MaterialNaming.RecordedNameHasOwner | blender/blender_453_material_manager.py:195-200 | under the repaired rule, every name in the seen-map was handed out to an earlier, non-skipped file |
| MaterialNaming.RecordedNameKept | blender/blender_453_material_manager.py:195-200 | under the repaired rule, every name handed out stays in the seen-map |
| MaterialNaming.RecordedNamesMembers | blender/blender_453_material_manager.py:195-200 | under the repaired rule, the seen-map's keys are exactly the names handed out so far |
| MaterialNaming.EarlierNameDiffers | blender/blender_453_material_manager.py:195-198 | for sorted, distinct texture files, no earlier name equals a later file's renamed name |
| MaterialNaming.NameAtIsFresh | blender/blender_453_material_manager.py:195-200 | under the repaired rule the name a file gets was not handed out before |
| MaterialNaming.PlanDistinctPrefix | blender/blender_453_material_manager.py:181-241 | every prefix of the repaired plan has no repeated names and only recorded names |
| MaterialNaming.PlanForFolderDistinct | blender/blender_453_material_manager.py:170-241 | for the files `get_texture_files` returns, the repaired plan never repeats a material name |
| MaterialNaming.CollidingFilesWellFormed | blender/blender_453_material_manager.py:86-103 | `a.jpg`, `a.png`, `a_png.bmp` is a listing `get_texture_files` can return: sorted, distinct, dotted suffixes |
| MaterialNaming.CollidingFilesAsWritten | blender/blender_453_material_manager.py:195-200 | the scripts' rule names those files `a`, `a_png`, `a_png` |
| MaterialNaming.CollidingFilesRepaired | blender/blender_453_material_manager.py:195-200 | the repaired rule names them `a`, `a_png`, `a_png_bmp` |
| MaterialNaming.DuplicateNameAsWritten | blender/blender_453_material_manager.py:195-200 | on a well-formed listing the as-written plan repeats a name and the repaired plan does not |
| MaterialNaming.PlanNamesTyped | blender/blender_453_material_manager.py:184-200 | in single mode every planned name carries `__SINGLE__`; in multipl mode the type check sees only base names, so a planned name carrying `__SINGLE__` is always some file's renamed name |
| MaterialNaming.JpgBeforePng | blender/blender_453_material_manager.py:101 | for any stem, `stem.jpg` sorts before `stem.png` |
| MaterialNaming.PrefixLikeNames | blender/blender_453_material_manager.py:184-198 | `__SINGLE_` is not a single name and `__SINGLE__png` is; they are the base and renamed names of `__SINGLE_.png` |
| MaterialNaming.PrefixLikeFilesWellFormed | blender/blender_453_material_manager.py:86-103 | `__SINGLE_.jpg`, `__SINGLE_.png` is a listing `get_texture_files` can return |
| MaterialNaming.PrefixLikeRenamedIsSingle | blender/blender_453_material_manager.py:184-200 | in multipl mode neither file is skipped, and both the scripts' rule and the repaired rule name them `__SINGLE_`, `__SINGLE__png`, the second a single-type name |
| MaterialNaming.SingleFilePlan | blender/blender_453_material_manager.py:181-241 | one file in single mode gives exactly `__SINGLE__` + stem, or nothing when its image fails to load |
| MaterialNaming.AsWrittenPlan | blender/blender_453_material_manager.py:181-241 | the plan as the scripts compute it never names more materials than there are files |
| MaterialNaming.FirstNamesStep | blender/blender_453_material_manager.py:195-200 | as written, the seen-map after one more file gains that file's base name unless the file is skipped, and never its renamed name |
| MaterialNaming.AsWrittenPlanStep | blender/blender_453_material_manager.py:181-240 | as written, one more file appends its name, chosen against the base names seen so far, exactly when it is not skipped and its image loads |
| MaterialNaming.FirstNamesMembers | blender/blender_453_material_manager.py:195-200 | as written, a name is a key of the seen-map exactly when it is the base name of some non-skipped file |
| MaterialNaming.TakeNameAsWritten | blender/blender_453_material_manager.py:195-200 | a repeated base name is renamed, and only an unseen base name is recorded |
| MaterialNaming.PlanMaterialsAsWritten | blender/blender_453_material_manager.py:177-241 | the naming loop as the scripts write it yields `AsWrittenPlan`, and its seen-map's keys are exactly the non-skipped files' base names |
| FolderMaterialManager.KeptMaterials | blender/blender_453_material_manager.py:107-134 | the cleanup never adds slots |
| FolderMaterialManager.KeptMaterialsMembers | blender/blender_453_material_manager.py:117-128 | a slot is kept exactly when it holds a material of the current type; empty slots are dropped |
| FolderMaterialManager.KeptMaterialsStep | blender/blender_453_material_manager.py:117-128 | one more slot is appended to the kept list exactly when it is kept |
| FolderMaterialManager.CleanupMaterialsFromOtherTypes | blender/blender_453_material_manager.py:107-134 | the object's slots become `KeptMaterials` of the old slots; an empty list stays empty; polygons are untouched |
| FolderMaterialManager.KeptMaterialsConcat | blender/blender_453_material_manager.py:117-128 | the cleanup keeps relative order: cleaning a concatenation cleans each part |
| FolderMaterialManager.KeptMaterialsIdempotent | blender/blender_453_material_manager.py:107-134 | cleaning twice for the same type equals cleaning once |
| FolderMaterialManager.KeptMaterialsPartition | blender/blender_453_material_manager.py:121-128 | each material is kept by exactly one of the two cleanups (multipl or single) |
| FolderMaterialManager.AppliedSlots | blender/blender_453_material_manager.py:263-312 | after the apply an object has at least one slot |
| FolderMaterialManager.MultiplSlotsLayout | blender/blender_453_material_manager.py:265-276 | multipl: the kept multipl materials in order, then one slot per planned material in plan order, no empty slot |
| FolderMaterialManager.SingleSlotsLayout | blender/blender_453_material_manager.py:298-306 | single: slot 0 is the chosen material and every slot is a single material |
| FolderMaterialManager.AppliedIndicesInRange | blender/blender_453_material_manager.py:279-310 | every polygon index names an existing slot; in single mode every index is 0 |
| FolderMaterialManager.ApplyToObject | blender/blender_453_material_manager.py:265-312 | one object's slots and polygon indices become `AppliedSlots` and `AppliedPolygons` of the old ones |
| FolderMaterialManager.ApplyToObjects | blender/blender_453_material_manager.py:263-316 | every selected object is updated as `ApplyToObject` says |
| FolderMaterialManager.ApplyFolder | blender/blender_453_material_manager.py:146-325 | cancels exactly when no object is selected, the folder is missing, there are no textures or no material was made, and a cancel leaves every object's slots and polygons as they were; `created`, the materials put in the registry, is the repaired seen-map's names whenever the texture files were listed, also on the late cancel; when not cancelled, every object gets the repaired plan |
| FolderMaterialManager.PrefixLikeMaterialDropped | blender/blender_453_material_manager.py:117-128 | the multipl cleanup drops the slot `__SINGLE__png` that a multipl apply made and keeps `__SINGLE_` |
| FolderMaterialManager.SingleFolderMaterial | blender/blender_453_material_manager.py:174-241 | a folder with one texture yields the one material `__SINGLE__` + stem, or none when the image fails |
| FolderMaterialManager.UsedMaterials | blender/blender_453_material_manager.py:376-387 | a name is used exactly when some selected object has a slot holding that material |
| FolderMaterialManager.ReducedExportParams | blender/blender_453_material_manager.py:436-439 | the retry drops `use_selection` and `export_materials` and keeps every other argument |
| FolderMaterialManager.ExportGlb | blender/blender_453_material_manager.py:355-456 | cancels without objects; `used` is the selected objects' materials and `unused` is the scene's materials minus those, so the two together are the scene's materials whenever every used material is in the scene; first call with the full arguments; finishes on success; only a `TypeError` retries, once, with the reduced arguments |
| FolderMaterialManager.NonEmptyCount | blender/blender_453_material_manager.py:481-484 | never more than the number of objects |
| FolderMaterialManager.MaterialsOf | blender/blender_453_material_manager.py:481-484 | entry k is object k's slot list |
| FolderMaterialManager.ClearMaterials | blender/blender_453_material_manager.py:465-488 | cancels exactly when nothing is selected; otherwise empties every object's slots and counts the objects that had any |
| BlenderData.MeshObject.constructor | blender/blender_453_material_manager.py:263-316 | an object holds the given name, slots and polygon indices |
| BlenderData.SlotsOf | blender/blender_453_material_manager.py:272-276 | one slot per name, holding that material, in order |
| BlenderData.CyclicIndices | blender/blender_453_material_manager.py:279-286 | one index per polygon |
| BlenderData.Zeros | blender/blender_453_material_manager.py:308-310 | one index per polygon |
| BlenderData.CyclicIndicesInRange | blender/blender_453_material_manager.py:284-286 | every cyclic index names an existing slot |
| BlenderData.CyclicOccurrencesStep | blender/blender_453_material_manager.py:284-286 | one more polygon adds one occurrence to exactly the slot it is given |
| BlenderData.CyclicOccurrences | blender/blender_453_material_manager.py:279-286 | slot k gets `count / n` polygons, plus one when `k < count % n` |
| BlenderData.CyclicBalanced | blender/blender_453_material_manager.py:279-286 | any two slots' polygon counts differ by at most one |
| BlenderData.DistributeCyclically | blender/blender_453_material_manager.py:279-286 | with polygons and slots present, polygon i gets index `i % slots`; otherwise nothing changes |
| BlenderData.AssignFirstSlot | blender/blender_453_material_manager.py:308-310 | every polygon gets index 0; the slots are untouched |
| MaterialManager.ReplaceWithMultiple | blender/blender_material_manager.py:175-213 | the object's slots become exactly the planned materials, and its polygons cycle through them |
| MaterialManager.ApplyMultiple | blender/blender_material_manager.py:50-217 | cancels exactly when nothing is selected, the folder is missing, there are no textures or no material was made, and a cancel leaves every object as it was; `created`, the materials put in the registry, is the repaired seen-map's names whenever the texture files were listed, also on the late cancel; when not cancelled, every object gets the repaired plan |
| MaterialManager.MultipleAppliedWellFormed | blender/blender_material_manager.py:175-213 | under the repaired rule, after Apply Multiple no two slots of an object hold the same material, and every polygon index names a slot |
| MaterialManager.CollectSingleTextures | blender/blender_material_manager.py:247-255 | the single folder's files are its texture files, each once; the list is empty exactly when `get_texture_files` would be |
| MaterialManager.PickSingleTexture | blender/blender_material_manager.py:247-262 | a file is found exactly when the folder has a texture, and the file found is one of its textures |
| MaterialManager.ReplaceWithSingle | blender/blender_material_manager.py:305-315 | every object ends with the single material as its only slot, on every polygon |
| MaterialManager.ApplySingle | blender/blender_material_manager.py:226-319 | cancels exactly when nothing is selected, the folder is missing or empty, or the image fails to load, and a cancel leaves every object as it was; once a file is picked, `__SINGLE__` + its stem is put in the registry (`created`), also when the load then fails; when not cancelled, every object shows that material alone |
| MaterialManager.SingleMaterialIsSingle | blender/blender_material_manager.py:267 | the single material's name is recognised as single and gives back its stem |
| MaterialManager.ExportAttempts | blender/blender_material_manager.py:373-401 | four argument sets, all exporting GLB to the chosen path |
| MaterialManager.ExportGlb | blender/blender_material_manager.py:349-426 | cancels without objects; tries the attempts in order until one succeeds; finishes exactly when some attempt succeeds |
| ModelStatistics.Traverse | src/utils/modelStatistics.ts:27 | the traversal starts at the object itself |
| ModelStatistics.TexturesAmongStep | src/utils/modelStatistics.ts:98-103 | checking one more property adds that property's texture, if it holds one |
| ModelStatistics.Round | src/utils/modelStatistics.ts:78-79 | `Math.round` gives the integer within half of its argument, halves going up |
| ModelStatistics.ExtractTextures | src/utils/modelStatistics.ts:90-104 | adds exactly the textures the material holds in the twelve properties |
| ModelStatistics.CollectMaterials | src/utils/modelStatistics.ts:47-73 | adds exactly the mesh's materials and their textures |
| ModelStatistics.TallyStep | src/utils/modelStatistics.ts:27-74 | the counters after one more node are those of the nodes before, extended by that node |
| ModelStatistics.VisitNode | src/utils/modelStatistics.ts:28-73 | the callback throws exactly on a non-indexed mesh without positions, and otherwise extends the counters by the node |
| ModelStatistics.VisitAll | src/utils/modelStatistics.ts:27-74 | the walk throws exactly when some node throws, and otherwise ends with the counters of all nodes |
| ModelStatistics.CalculateModelStatistics | src/utils/modelStatistics.ts:8-85 | fails on an object that is neither a Group nor a Scene and has no `traverse`; fails when a visited mesh lacks positions; otherwise reports the counts over the traversal |
| ModelStatistics.RoundOfInteger | src/utils/modelStatistics.ts:78 | rounding the vertex sum changes nothing |
| ModelStatistics.TexturesOfCountedMaterials | src/utils/modelStatistics.ts:47-73 | the textures counted are exactly those of the materials counted |
| ModelStatistics.FaceSumOfTriangles | src/utils/modelStatistics.ts:39-45 | when every count is a multiple of three, the face sum is a whole number of triangles |
| ModelStatistics.FacesOfTriangleMeshes | src/utils/modelStatistics.ts:79 | the reported face count is then exactly the number of triangles |
| ModelStatistics.TraverseMeshCount | src/utils/modelStatistics.ts:27-30 | the traversal counts each mesh of the tree exactly once |
| ModelStatistics.TraverseAllMeshCount | src/utils/modelStatistics.ts:27-30 | the same over a list of subtrees |
| ModelSlice.InitialIdsAre | src/store/modelSlice.ts:21-151 | the initial catalogue's ids are the seventeen ids, in order |
| ModelSlice.InitialIdsLiteralDistinct | src/store/modelSlice.ts:21-151 | no two of those ids are equal |
| ModelSlice.InitialIdsDistinct | src/store/modelSlice.ts:21-151 | the initial catalogue has 17 entries, each under its own id |
| ModelSlice.InitialObjTextured | src/store/modelSlice.ts:21-151 | every OBJ entry of the initial catalogue names a texture |
| ModelSlice.InitialCatalogue | src/store/modelSlice.ts:21-151 | the store starts well formed, with nothing selected, not loading, no error and no texture |
| ModelSlice.AppendKeepsWellFormed | src/store/modelSlice.ts:163-165 | appending an entry with a new id, textured if OBJ, keeps the catalogue well formed |
| ModelSlice.AppendDuplicateId | src/store/modelSlice.ts:163-165 | `addModel` checks no ids: appending a taken id breaks well-formedness |
| ModelSlice.ModelStore.constructor | src/store/modelSlice.ts:21-151 | the store holds `initialState` |
| ModelSlice.ModelStore.SetSelectedModel | src/store/modelSlice.ts:157-159 | only `selectedModel` changes, to the payload |
| ModelSlice.ModelStore.SetModels | src/store/modelSlice.ts:160-162 | only the list changes, replaced by the payload |
| ModelSlice.ModelStore.AddModel | src/store/modelSlice.ts:163-165 | the payload is appended; earlier entries and every other field stay |
| ModelSlice.ModelStore.SetLoading | src/store/modelSlice.ts:166-168 | only `isLoading` changes |
| ModelSlice.ModelStore.SetError | src/store/modelSlice.ts:169-171 | only `error` changes, to a message or to null |
| ModelSlice.ModelStore.SetSelectedTexture | src/store/modelSlice.ts:172-174 | only `selectedTexture` changes |
| TextureNavigation.PresetsDistinct | src/hooks/useTextureNavigation.ts:7-13 | the presets are five distinct paths, so they satisfy every lemma's precondition |
| TextureNavigation.FindIndex | src/hooks/useTextureNavigation.ts:20 | `findIndex` gives the first index holding the selection, or -1 when none does |
| TextureNavigation.FindIndexOfDistinct | src/hooks/useTextureNavigation.ts:20 | in a list without repeats each entry is found at its own index |
| TextureNavigation.Next | src/hooks/useTextureNavigation.ts:19-27 | "next" always selects an entry of the list |
| TextureNavigation.Previous | src/hooks/useTextureNavigation.ts:29-37 | "previous" always selects an entry of the list |
| TextureNavigation.NextTexture | src/hooks/useTextureNavigation.ts:19-27 | `nextTexture` always selects a preset |
| TextureNavigation.PreviousTexture | src/hooks/useTextureNavigation.ts:29-37 | `previousTexture` always selects a preset |
| TextureNavigation.Succ | src/hooks/useTextureNavigation.ts:22 | one place forward stays in range |
| TextureNavigation.Pred | src/hooks/useTextureNavigation.ts:32 | one place back stays in range |
| TextureNavigation.StepFromEntry | src/hooks/useTextureNavigation.ts:19-37 | on an entry, "next" moves one place forward (last to first) and "previous" one place back (first to last) |
| TextureNavigation.UnknownGoesToFirst | src/hooks/useTextureNavigation.ts:24-25 | no selection, or one outside the list, goes to the first entry in both directions |
| TextureNavigation.InverseOnEntry | src/hooks/useTextureNavigation.ts:19-37 | on an entry, "previous" undoes "next" and "next" undoes "previous" |
| TextureNavigation.StepsAreInverse | src/hooks/useTextureNavigation.ts:19-37 | the same for any selection in the list; after one "next" from anywhere, "previous" undoes the next step |
| TextureNavigation.Advance | src/hooks/useTextureNavigation.ts:22 | advancing at most a full turn stays in range |
| TextureNavigation.NextTimesStep | src/hooks/useTextureNavigation.ts:19-27 | one more press of "next" moves one more place |
| TextureNavigation.NextTimesFromEntry | src/hooks/useTextureNavigation.ts:19-27 | `count` presses move `count` places around the list |
| TextureNavigation.FullCycle | src/hooks/useTextureNavigation.ts:19-27 | one press per entry comes back to the starting texture |
| TextureNavigation.SelectNextTexture | src/hooks/useTextureNavigation.ts:19-27 | the store's texture becomes `NextTexture` of the old one, a preset; nothing else changes |
| TextureNavigation.SelectPreviousTexture | src/hooks/useTextureNavigation.ts:29-37 | the store's texture becomes `PreviousTexture` of the old one, a preset; nothing else changes |
| SwipeGestures.Abs | src/hooks/useSwipeGestures.ts:26-27 | `Math.abs` is non-negative and equal to the value or its negation |
| SwipeGestures.Classify | src/hooks/useSwipeGestures.ts:21-37 | a swipe exactly when the move is more horizontal than vertical and longer than the threshold; right only for positive, left only for negative movement |
| SwipeGestures.ClassifySymmetric | src/hooks/useSwipeGestures.ts:21-37 | mirroring a gesture sideways swaps left and right; flipping it vertically changes nothing |
| SwipeGestures.ClassifyMonotone | src/hooks/useSwipeGestures.ts:27 | a swipe recognised under a threshold is recognised the same under any lower one |
| SwipeGestures.VerticalIsNoSwipe | src/hooks/useSwipeGestures.ts:26 | a move at least as vertical as horizontal is never a swipe |
| SwipeGestures.SwipeHandler.constructor | src/hooks/useSwipeGestures.ts:10-19 | refs start at 0, the threshold defaults to 50, `preventDefaultTouchmoveEvent` to false |
| SwipeGestures.SwipeHandler.HandleSwipe | src/hooks/useSwipeGestures.ts:21-37 | the swipe the stored points make, and whether its callback exists and is called |
| SwipeGestures.SwipeHandler.HandleTouchStart | src/hooks/useSwipeGestures.ts:39-42 | the start point becomes the touch; the end point stays |
| SwipeGestures.SwipeHandler.HandleTouchMove | src/hooks/useSwipeGestures.ts:44-48 | the default action is suppressed exactly when the option says so |
| SwipeGestures.SwipeHandler.HandleTouchEnd | src/hooks/useSwipeGestures.ts:50-54 | the end point becomes the touch and the swipe from the stored start is decided |
| SwipeGestures.Gesture | src/hooks/useSwipeGestures.ts:39-54 | a touch down then up is classified from those two points alone; a callback runs only for a swipe |

## Left out

- Blender's node trees are left out. Nothing is modelled of the Principled
  BSDF, the image texture node, node locations or links.
  `bpy.data.images.load` is the predicate `imageLoads`.
- The registry checks `name in bpy.data.materials` (453 script lines 273 and
  301; earlier script line 182) are not modelled. The model assumes every
  material name fits Blender's limit of 63 bytes, so the material made just
  before is found under that name. A longer name is truncated by Blender; the
  check then fails, and the script skips that material (in single mode with
  the warning at line 316).
- ApplyToObject: assumes every planned material name fits Blender's 63-byte
  name limit, so each registry check succeeds.
- ApplyFolder: assumes every planned material name fits Blender's 63-byte
  name limit, so each registry check succeeds.
- ApplyMultiple: assumes every planned material name fits Blender's 63-byte
  name limit, so each registry check succeeds.
- Not modelled:
  - `get_selected_objects`, including edit-mode handling and object types;
  - `mode_set`;
  - `select_all` / `select_set`;
  - `used_material_objects`, which only feeds printed output.
  Operators take the selected mesh objects as a list of distinct objects.
- Linked mesh data (two selected objects sharing one `obj.data`) is not
  modelled. Each object owns its slots and polygons.
- `print`, `self.report` messages, the panel (`MATERIAL_PT_panel`), `invoke`
  (the file dialog), `register`/`unregister` and the close-script operator are
  user interface with no state to model.
- Listings and paths are left out: `os.path.exists`, `Path.iterdir`, `glob`
  and listing order are inputs. pathlib's case-insensitive glob on Windows is
  the flag `foldsCase`.
- Glob patterns are matched against the regular files of a listing, by their
  pathlib suffix. A sub-directory whose name ends in an image extension, or
  a file such as `.png` whose suffix pathlib leaves empty, is not modelled as a
  glob match.
- `list(set(...))` is modelled as keeping the first occurrence of each file.
  Python's set iteration order is hash-dependent. The earlier script's Apply
  Single takes `texture_files[0]` from that unordered list, so
  `PickSingleTexture` picks an arbitrary texture file of the folder.
- GetTextureFiles: the sort is stable, so files whose lower-cased names are
  equal keep the glob order, lower-case pattern first. On a case-sensitive
  file system `a.png` and `a.PNG` are such a pair. In Python their order
  comes from the set's hash order, so either file may be the one renamed.
- TextureFilesSpec: fixes the same tie-break as `GetTextureFiles`; Python
  leaves the order of files with equal lower-cased names to hash order.
- Re-applying a multipl folder in the 453 script keeps the object's earlier
  multipl materials and appends the new ones. The same material can
  therefore occupy two slots. `MultiplSlotsLayout` states this layout as the
  source produces it.
- The earlier export's final `return {'FINISHED'}` (line 426) cannot be
  reached, since the fourth attempt always returns. `ExportGlb` has no path
  for it.
- `FolderMaterialManager.ExportGlb` does not model the exporter's effect on
  disk. Exporter calls are the function `exporter`.
- `calculateModelStatistics` uses JavaScript doubles; the model uses exact
  reals for faces and unbounded integers for the other counts. Materials and
  textures are compared by identity in the source; the model gives them
  explicit ids. `instanceof` checks are booleans on the node and on the root
  kind, and `AnimationClip`s only count.
- `SwipeGestures`: coordinates are exact reals rather than doubles. Event
  objects, `useRef`/`useCallback` and the actual `preventDefault` call are
  left out; `HandleTouchMove` reports whether it would be made. The
  callbacks are modelled by whether each one was given.
- React hooks, `useDispatch`/`useSelector`, the Redux store wiring
  (`store.ts`) and the action creators are plumbing. The hooks act on a
  `ModelStore` directly.
- Text.Lower lower-cases ASCII letters only, and every other character is
  kept. Python's `str.lower()` follows Unicode and depends on context: `Б`
  becomes `б`, and a final `Σ` becomes `ς` rather than `σ`. The model
  therefore assumes that names lower-case character by character, as ASCII
  does. Outside that, the model's order and counts differ from the scripts'.
  Folders `Б` and `а` sort the other way round. `Фото.png` and `фото.png`
  count as one name in Python but two in the model. The files `ΑΣ.jpg`,
  `ΑΣ.png` and `ΑΣ_png.bmp` sort with `ΑΣ_png.bmp` first in Python, and the
  repaired rule then hands out `ΑΣ_png` twice.
- TextureFilesSpec: the sort key is the ASCII lower-casing of `Text.Lower`.
- GetTextureFiles: sorts by the ASCII lower-casing of `Text.Lower`.
- Candidates: counts distinct ASCII-lower-cased names.
- TextureNamesStep: uses the ASCII lower-casing of `Text.Lower`.
- ScanTextureFolders: counts and sorts by the ASCII lower-casing of `Text.Lower`.
- RenamedStemSortsAfter: holds for the ASCII lower-casing only; the final-sigma input above breaks it in Python.
- LowerAroundSeparator: holds for the ASCII lower-casing only; Python's final sigma depends on the character after it.
- BaseIsNotRenamed: relies on the ASCII sort order; the final-sigma input above breaks it in Python.
- EarlierNameDiffers: relies on the ASCII sort order; the final-sigma input above breaks it in Python.
- NameAtIsFresh: relies on the ASCII sort order; the final-sigma input above breaks it in Python.
- PlanDistinctPrefix: relies on the ASCII sort order; the final-sigma input above breaks it in Python.
- PlanForFolderDistinct: relies on the ASCII sort order; the final-sigma input above breaks it in Python.
- MultipleAppliedWellFormed: relies on the ASCII sort order through `PlanForFolderDistinct`.
- PlanNamesTyped: in multipl mode the type check tests only the base name,
  so a renamed name can carry `__SINGLE__`. `__SINGLE_.jpg` and
  `__SINGLE_.png` give `__SINGLE__png` (`PrefixLikeRenamedIsSingle`). The
  model keeps this behaviour of both scripts, and neither naming rule
  prevents it. The material is then applied in multipl mode, and the next
  multipl cleanup drops it (`PrefixLikeMaterialDropped`).
- The operators use the repaired naming rule, under which every name handed
  out is recorded. The scripts record only base names, at 453 script lines
  199-200 and earlier script lines 111-112. The loop as written is
  `PlanMaterialsAsWritten`, proved against `AsWrittenPlan` and `FirstNames`.
  Its seen-map values, which only feed printed output, are not specified.
- PlanMaterials: follows the repaired rule, not the scripts' rule (see `PlanMaterialsAsWritten`).
- RecordedNamesStep: describes the repaired seen-map; the scripts' map is `FirstNames` (see `FirstNamesStep`).
- RecordedNameKept: describes the repaired seen-map; the scripts' map keeps only base names.
- RecordedNamesMembers: describes the repaired seen-map; the scripts' map is described by `FirstNamesMembers`.
- RecordedNameHasOwner: describes the repaired seen-map.
- MultipleAppliedWellFormed: holds under the repaired rule; as written, `DuplicateNameAsWritten` shows two slots holding one material.
- ApplyFolder: applies the repaired plan; as written, the plan is `AsWrittenPlan` and the registry also gets the renamed names.
- ApplyMultiple: applies the repaired plan; as written, the plan is `AsWrittenPlan` and the registry also gets the renamed names.

## Findings

| source | as written | input that shows it | evidently intended | confidence | as-written member | corrected member |
|---|---|---|---|---|---|---|
| blender/blender_453_material_manager.py:195-200 (and blender/blender_material_manager.py:107-112) | a repeated base name is renamed to `stem_ext`, but only base names go into `material_names_seen`, so a renamed name can be handed out twice | files `a.jpg`, `a.png`, `a_png.bmp` in one multipl folder give `a`, `a_png`, `a_png`; two slots then hold one material | every material name handed out is recorded, so each texture gets its own material (`a`, `a_png`, `a_png_bmp`) | not executed | MaterialNaming.DuplicateNameAsWritten | MaterialNaming.PlanForFolderDistinct |

The operators of both Blender scripts use the repaired naming rule (`Plan`,
computed by `PlanMaterials`). The rule as the scripts write it is
`AsWrittenPlan`, computed by the loop `PlanMaterialsAsWritten`, next to the
counterexample. The repaired rule's distinctness holds for names that
lower-case character by character (see `Text.Lower` under "## Left out").
