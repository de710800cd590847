/** The viewer's model catalogue store: which model and texture are
    selected, the list of models, and the loading and error flags. Each
    reducer assigns one field (or appends to the list) and leaves the rest. */
module ModelSlice {
  import opened Options

  datatype ModelType = Glb | Obj

  /** `ModelInfo`: an entry of the catalogue. */
  datatype ModelInfo = ModelInfo(id: string, name: string, path: string, description: Option<string>,
                                 modelType: ModelType, texturePath: Option<string>, thumbnail: Option<string>)

  /** `ModelState` as a value. */
  datatype ModelState = ModelState(selectedModel: string, models: seq<ModelInfo>, isLoading: bool,
                                   error: Option<string>, selectedTexture: Option<string>)

  function Glb(id: string, name: string, path: string, description: string): ModelInfo {
    ModelInfo(id, name, path, Some(description), ModelType.Glb, None, None)
  }

  function Obj(id: string, name: string, path: string, description: string, texturePath: string): ModelInfo {
    ModelInfo(id, name, path, Some(description), ModelType.Obj, Some(texturePath), None)
  }

  const Koltuk := Obj("Koltuk", "Koltuk", "/models/Koltuk.obj", "Sofa", "/textures/wood.svg")
  const Sofa := Glb("sofa", "Sofa", "/models/aKoltuk.glb", "Классический диван")
  const Creeper := Glb("creeper", "Creeper", "/models/hd_creeper.glb", "Классический моб из Minecraft")
  const Mark23 := Glb("mark_23", "Mark_23", "/models/mark_23__animated_free.glb", "Пистолет")
  const Zombie := Glb("zombie", "Zombie", "/models/zombie.glb", "Зомби из Minecraft")
  const LargeZombie := Glb("large-zombie", "Large Zombie", "/models/large_zombie.glb", "Большой зомби")
  const Ghast := Glb("ghast", "Ghast", "/models/hd_ghast.glb", "Призрачный моб из Нижнего мира")
  const Enderman := Glb("enderman", "Angry Enderman", "/models/angry_enderman.glb", "Сердитый Эндермен")
  const Swan := Glb("swan", "Minecraft Swan", "/models/minecraft_swan_model_version_1.glb", "Лебедь из Minecraft")
  const Bee := Glb("bee", "Bee", "/models/minecraft_-_bee.glb", "Пчела из Minecraft")
  const SpongeBob := Glb("spongebob", "SpongeBob", "/models/spongebob_-_minecraft_dlc_free_to_download.glb", "SpongeBob Minecraft DLC")
  const RainbowDragon := Glb("rainbow-dragon", "Rainbow Dragon", "/models/minecraft_rainbow_dragon.glb", "Радужный дракон из Minecraft")
  const Axolotl := Glb("axolotl", "Axolotl", "/models/minecraft_axolotl__free_download.glb", "Аксолотль из Minecraft")
  const Phantom := Glb("phantom", "Advanced Phantom", "/models/minecraft_advenced_phantom_free_download.glb", "Продвинутый фантом из Minecraft")
  const Fox := Glb("fox", "Fox", "/models/fox_minecraft.glb", "Лиса из Minecraft")
  const CubeObj := Obj("cube-obj", "Cube (OBJ)", "/models/cube.obj", "Простой куб для тестирования текстур", "/textures/wood.svg")
  const SphereObj := Obj("sphere-obj", "Sphere (OBJ)", "/models/sphere.obj", "Сфера для демонстрации текстур", "/textures/metal.svg")

  /** The catalogue the store starts with. */
  const InitialModels: seq<ModelInfo> :=
    [Koltuk, Sofa, Creeper, Mark23, Zombie, LargeZombie, Ghast, Enderman, Swan,
     Bee, SpongeBob, RainbowDragon, Axolotl, Phantom, Fox, CubeObj, SphereObj]

  const InitialState: ModelState := ModelState("", InitialModels, false, None, None)

  /** A catalogue the viewer can use: ids tell entries apart, and every OBJ
      entry names the texture to put on it. */
  predicate WellFormedCatalogue(models: seq<ModelInfo>) {
    && (forall i, j :: 0 <= i < j < |models| ==> models[i].id != models[j].id)
    && (forall k :: 0 <= k < |models| && models[k].modelType == ModelType.Obj ==> models[k].texturePath.Some?)
  }

  /** The ids of the initial catalogue, written out. */
  const InitialIds: seq<string> :=
    ["Koltuk", "sofa", "creeper", "mark_23", "zombie", "large-zombie", "ghast", "enderman",
     "swan", "bee", "spongebob", "rainbow-dragon", "axolotl", "phantom", "fox", "cube-obj", "sphere-obj"]

  lemma InitialIdsAre()
    ensures |InitialModels| == |InitialIds|
    ensures forall k :: 0 <= k < |InitialIds| ==> InitialModels[k].id == InitialIds[k]
  {
  }

  /** No two of those ids are equal. */
  lemma InitialIdsLiteralDistinct()
    ensures forall i, j :: 0 <= i < j < |InitialIds| ==> InitialIds[i] != InitialIds[j]
  {
  }

  /** The initial catalogue names 17 models, each under its own id. */
  lemma InitialIdsDistinct()
    ensures |InitialModels| == 17
    ensures forall i, j :: 0 <= i < j < |InitialModels| ==> InitialModels[i].id != InitialModels[j].id
  {
    InitialIdsAre();
    InitialIdsLiteralDistinct();
  }

  /** Every OBJ entry of the initial catalogue names its texture. */
  lemma InitialObjTextured()
    ensures forall k :: 0 <= k < |InitialModels| && InitialModels[k].modelType == ModelType.Obj ==>
              InitialModels[k].texturePath.Some?
  {
  }

  /** The store starts with the 17-entry catalogue, well formed, nothing
      selected, not loading and no error. */
  lemma InitialCatalogue()
    ensures |InitialState.models| == 17
    ensures WellFormedCatalogue(InitialState.models)
    ensures InitialState.selectedModel == "" && !InitialState.isLoading
    ensures InitialState.error == None && InitialState.selectedTexture == None
  {
    InitialIdsDistinct();
    InitialObjTextured();
  }

  /** Appending an entry with a new id (and a texture when it is OBJ) keeps
      the catalogue well formed. */
  lemma AppendKeepsWellFormed(models: seq<ModelInfo>, m: ModelInfo)
    requires WellFormedCatalogue(models)
    requires forall e :: e in models ==> e.id != m.id
    requires m.modelType == ModelType.Obj ==> m.texturePath.Some?
    ensures WellFormedCatalogue(models + [m])
  {
    var s := models + [m];
    forall i, j | 0 <= i < j < |s|
      ensures s[i].id != s[j].id
    {
      if j == |models| {
        assert s[i] in models;
      }
    }
  }

  /** `addModel` does not look at ids: appending an entry whose id is taken
      makes two entries share it. */
  lemma AppendDuplicateId(models: seq<ModelInfo>, m: ModelInfo)
    requires exists e :: e in models && e.id == m.id
    ensures !WellFormedCatalogue(models + [m])
  {
    var e :| e in models && e.id == m.id;
    var i :| 0 <= i < |models| && models[i] == e;
    var s := models + [m];
    assert s[i].id == s[|models|].id;
  }

  /** The store, with the six reducers as methods. */
  class ModelStore {
    var selectedModel: string
    var models: seq<ModelInfo>
    var isLoading: bool
    var error: Option<string>
    var selectedTexture: Option<string>

    function State(): ModelState
      reads this
    {
      ModelState(selectedModel, models, isLoading, error, selectedTexture)
    }

    /** The store holding `initialState`. */
    constructor ()
      ensures State() == InitialState
    {
      selectedModel := "";
      models := InitialModels;
      isLoading := false;
      error := None;
      selectedTexture := None;
    }

    /** `setSelectedModel`. */
    method SetSelectedModel(payload: string)
      modifies this
      ensures State() == old(State()).(selectedModel := payload)
    {
      selectedModel := payload;
    }

    /** `setModels`: the list is replaced wholesale. */
    method SetModels(payload: seq<ModelInfo>)
      modifies this
      ensures State() == old(State()).(models := payload)
    {
      models := payload;
    }

    /** `addModel`: the entry goes at the end; the earlier entries stay. */
    method AddModel(payload: ModelInfo)
      modifies this
      ensures State() == old(State()).(models := old(models) + [payload])
      ensures |models| == |old(models)| + 1 && models[..|old(models)|] == old(models)
      ensures models[|models| - 1] == payload
    {
      models := models + [payload];
    }

    /** `setLoading`. */
    method SetLoading(payload: bool)
      modifies this
      ensures State() == old(State()).(isLoading := payload)
    {
      isLoading := payload;
    }

    /** `setError`: a message, or `null` to clear it. */
    method SetError(payload: Option<string>)
      modifies this
      ensures State() == old(State()).(error := payload)
    {
      error := payload;
    }

    /** `setSelectedTexture`: a texture path, or `null`. */
    method SetSelectedTexture(payload: Option<string>)
      modifies this
      ensures State() == old(State()).(selectedTexture := payload)
    {
      selectedTexture := payload;
    }
  }
}
