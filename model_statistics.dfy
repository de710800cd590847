/** Scene statistics: one pre-order walk over a three.js object tree that
    counts meshes, vertices, faces and bones and collects the distinct
    materials and the distinct textures found in twelve material properties.
    Materials and textures are compared by identity in the source; here each
    carries an `id`, and two values are the same object exactly when equal. */
module ModelStatistics {
  import opened Seqs
  import opened Options

  datatype Texture = Texture(id: nat)

  /** The value of a material property: a texture or anything else. */
  datatype PropValue = TextureValue(texture: Texture) | OtherValue

  /** A material: its identity and the properties it defines. */
  datatype Material = Material(id: nat, props: map<string, PropValue>)

  /** `mesh.material`: absent, one material, or an array of them. */
  datatype MaterialRef = NoMaterial | SingleMaterial(material: Material) | MaterialArray(items: seq<Material>)

  /** The `count` of `geometry.attributes.position` and of `geometry.index`, when present. */
  datatype Geometry = Geometry(positionCount: Option<nat>, indexCount: Option<nat>)

  datatype Mesh = Mesh(geometry: Geometry, material: MaterialRef)

  /** An `Object3D`: a mesh or not, a bone or not, and its children. */
  datatype Node = Node(mesh: Option<Mesh>, isBone: bool, children: seq<Node>)

  /** What the object handed in is: a `Group`, a `Scene`, or something else
      that may or may not have a `traverse` method. */
  datatype RootKind = GroupRoot | SceneRoot | OtherRoot(hasTraverse: bool)

  /** The record the function returns. */
  datatype Statistics = Statistics(materials: nat, vertices: int, faces: int, meshes: nat,
                                   textures: nat, animations: nat, bones: nat)

  /** The two ways the function throws: the type check, and reading
      `position.count` of a non-indexed mesh that has no positions. */
  datatype StatsError = NotGroupOrScene | MissingPosition

  datatype Outcome = Ok(stats: Statistics) | Failed(error: StatsError)

  /** The properties `extractTextures` looks at. */
  const TextureProperties: seq<string> := ["map", "normalMap", "roughnessMap", "metalnessMap",
    "aoMap", "emissiveMap", "bumpMap", "displacementMap",
    "alphaMap", "envMap", "lightMap", "specularMap"]

  // ---------------------------------------------------------------- traversal

  /** `object.traverse`: the object itself, then each child's subtree in order. */
  function Traverse(n: Node): (r: seq<Node>)
    ensures |r| >= 1 && r[0] == n
    decreases n, 1
  {
    [n] + TraverseAll(n.children)
  }

  function TraverseAll(ns: seq<Node>): seq<Node>
    decreases ns, 0
  {
    if ns == [] then [] else Traverse(ns[0]) + TraverseAll(ns[1..])
  }

  // ---------------------------------------------------------------- what is counted

  predicate IsMeshNode(n: Node) {
    n.mesh.Some?
  }

  predicate IsBoneNode(n: Node) {
    n.isBone
  }

  /** The materials a mesh holds. */
  function RefMaterials(ref: MaterialRef): seq<Material> {
    match ref
    case NoMaterial => []
    case SingleMaterial(m) => [m]
    case MaterialArray(items) => items
  }

  /** The textures a material holds in the twelve properties. */
  function MaterialTextures(m: Material): set<Texture> {
    TexturesAmong(TextureProperties, m)
  }

  /** The textures a material holds in the given properties. */
  function TexturesAmong(props: seq<string>, m: Material): set<Texture> {
    set p | p in props && p in m.props && m.props[p].TextureValue? :: m.props[p].texture
  }

  lemma TexturesAmongStep(props: seq<string>, p: string, m: Material)
    ensures TexturesAmong(props + [p], m) ==
      TexturesAmong(props, m) + (if p in m.props && m.props[p].TextureValue? then {m.props[p].texture} else {})
  {
  }

  /** The materials of one mesh, as a set. */
  function MeshMaterials(mesh: Mesh): set<Material> {
    set m | m in RefMaterials(mesh.material)
  }

  /** The textures of one mesh's materials. */
  function MeshTextures(mesh: Mesh): set<Texture> {
    set m, t | m in RefMaterials(mesh.material) && t in MaterialTextures(m) :: t
  }

  /** The distinct materials of the meshes among the nodes. */
  function MaterialsIn(nodes: seq<Node>): set<Material> {
    set n, m | n in nodes && n.mesh.Some? && m in RefMaterials(n.mesh.value.material) :: m
  }

  /** The distinct textures of the meshes among the nodes. */
  function TexturesIn(nodes: seq<Node>): set<Texture> {
    set n, m, t | n in nodes && n.mesh.Some? && m in RefMaterials(n.mesh.value.material) && t in MaterialTextures(m) :: t
  }

  /** The vertices a node adds. */
  function NodeVertices(n: Node): nat {
    if n.mesh.Some? && n.mesh.value.geometry.positionCount.Some? then n.mesh.value.geometry.positionCount.value else 0
  }

  /** The faces a node adds: a third of the index count, or of the position
      count when it has no index. */
  function NodeFaces(n: Node): real {
    if n.mesh.None? then 0.0
    else
      var g := n.mesh.value.geometry;
      if g.indexCount.Some? then g.indexCount.value as real / 3.0
      else if g.positionCount.Some? then g.positionCount.value as real / 3.0
      else 0.0
  }

  /** A node whose face count reads a missing position attribute. */
  predicate Throws(n: Node) {
    n.mesh.Some? && n.mesh.value.geometry.indexCount.None? && n.mesh.value.geometry.positionCount.None?
  }

  function VertexSum(nodes: seq<Node>): nat
    decreases |nodes|
  {
    if nodes == [] then 0 else VertexSum(nodes[..|nodes| - 1]) + NodeVertices(nodes[|nodes| - 1])
  }

  function FaceSum(nodes: seq<Node>): real
    decreases |nodes|
  {
    if nodes == [] then 0.0 else FaceSum(nodes[..|nodes| - 1]) + NodeFaces(nodes[|nodes| - 1])
  }

  /** `Math.round`: halves go up. */
  function Round(x: real): (r: int)
    ensures r as real - 0.5 <= x < r as real + 0.5
  {
    (x + 0.5).Floor
  }

  // ---------------------------------------------------------------- the fold

  /** `extractTextures(material, textures)`: adds the material's textures to the set. */
  method ExtractTextures(material: Material, textures: set<Texture>) returns (result: set<Texture>)
    ensures result == textures + MaterialTextures(material)
  {
    result := textures;
    for k := 0 to |TextureProperties|
      invariant result == textures + TexturesAmong(TextureProperties[..k], material)
    {
      var prop := TextureProperties[k];
      assert TextureProperties[..k + 1] == TextureProperties[..k] + [prop];
      TexturesAmongStep(TextureProperties[..k], prop, material);
      if prop in material.props && material.props[prop].TextureValue? {
        result := result + {material.props[prop].texture};
      }
    }
    assert TextureProperties[..|TextureProperties|] == TextureProperties;
  }

  /** What the traversal callback does to the collected sets for one mesh. */
  method CollectMaterials(mesh: Mesh, materials: set<Material>, textures: set<Texture>)
    returns (materials': set<Material>, textures': set<Texture>)
    ensures materials' == materials + MeshMaterials(mesh)
    ensures textures' == textures + MeshTextures(mesh)
  {
    var items := RefMaterials(mesh.material);
    materials', textures' := materials, textures;
    for j := 0 to |items|
      invariant materials' == materials + set m | m in items[..j]
      invariant textures' == textures + set m, t | m in items[..j] && t in MaterialTextures(m) :: t
    {
      assert items[..j + 1] == items[..j] + [items[j]];
      materials' := materials' + {items[j]};
      textures' := ExtractTextures(items[j], textures');
    }
    assert items[..|items|] == items;
  }

  /** The counters and sets the traversal callback updates. */
  datatype Tally = Tally(materials: set<Material>, textures: set<Texture>, vertices: nat, faces: real,
                         meshes: nat, bones: nat)

  /** What the counters hold once the given nodes have been visited. */
  function TallyOf(nodes: seq<Node>): Tally {
    Tally(MaterialsIn(nodes), TexturesIn(nodes), VertexSum(nodes), FaceSum(nodes),
          |Filter(nodes, IsMeshNode)|, |Filter(nodes, IsBoneNode)|)
  }

  /** The counters after one more node has been visited. */
  function Extend(t: Tally, n: Node): Tally {
    Tally(t.materials + (if n.mesh.Some? then MeshMaterials(n.mesh.value) else {}),
          t.textures + (if n.mesh.Some? then MeshTextures(n.mesh.value) else {}),
          t.vertices + NodeVertices(n),
          t.faces + NodeFaces(n),
          t.meshes + (if n.mesh.Some? then 1 else 0),
          t.bones + (if n.isBone then 1 else 0))
  }

  lemma TallyStep(visited: seq<Node>, n: Node)
    ensures TallyOf(visited + [n]) == Extend(TallyOf(visited), n)
  {
    var s := visited + [n];
    assert s[..|s| - 1] == visited;
    assert MaterialsIn(s) == MaterialsIn(visited) + (if n.mesh.Some? then MeshMaterials(n.mesh.value) else {});
    assert TexturesIn(s) == TexturesIn(visited) + (if n.mesh.Some? then MeshTextures(n.mesh.value) else {});
  }

  /** The traversal callback for one object; `thrown` when it reads the
      positions of a non-indexed mesh that has none. */
  method VisitNode(obj: Node, tally: Tally) returns (tally': Tally, thrown: bool)
    ensures thrown == Throws(obj)
    ensures !thrown ==> tally' == Extend(tally, obj)
  {
    var materials, textures := tally.materials, tally.textures;
    var vertices, faces, meshes, bones := tally.vertices, tally.faces, tally.meshes, tally.bones;
    if obj.mesh.Some? {
      meshes := meshes + 1;
      var geometry := obj.mesh.value.geometry;
      if geometry.positionCount.Some? {
        vertices := vertices + geometry.positionCount.value;
      }
      if geometry.indexCount.Some? {
        faces := faces + geometry.indexCount.value as real / 3.0;
      } else if geometry.positionCount.Some? {
        faces := faces + geometry.positionCount.value as real / 3.0;
      } else {
        return tally, true;
      }
      materials, textures := CollectMaterials(obj.mesh.value, materials, textures);
    }
    if obj.isBone {
      bones := bones + 1;
    }
    tally', thrown := Tally(materials, textures, vertices, faces, meshes, bones), false;
  }

  /** `calculateModelStatistics(scene, animations)`. */
  method CalculateModelStatistics(kind: RootKind, scene: Node, animationCount: nat) returns (r: Outcome)
    ensures kind.OtherRoot? && !kind.hasTraverse ==> r == Failed(NotGroupOrScene)
    ensures !(kind.OtherRoot? && !kind.hasTraverse) ==>
      if exists n :: n in Traverse(scene) && Throws(n) then r == Failed(MissingPosition)
      else r.Ok? && r.stats == Statistics(
        |MaterialsIn(Traverse(scene))|,
        VertexSum(Traverse(scene)),
        Round(FaceSum(Traverse(scene))),
        |Filter(Traverse(scene), IsMeshNode)|,
        |TexturesIn(Traverse(scene))|,
        animationCount,
        |Filter(Traverse(scene), IsBoneNode)|)
  {
    if kind.OtherRoot? && !kind.hasTraverse {
      return Failed(NotGroupOrScene);
    }
    var nodes := Traverse(scene);
    var tally, thrown := VisitAll(nodes);
    if thrown {
      return Failed(MissingPosition);
    }
    assert forall n :: n in nodes ==> !Throws(n);
    r := Ok(Statistics(|tally.materials|, Round(tally.vertices as real), Round(tally.faces), tally.meshes,
                       |tally.textures|, animationCount, tally.bones));
  }

  /** `scene.traverse(callback)` over the nodes in traversal order: stops at
      the first node whose callback throws. */
  method VisitAll(nodes: seq<Node>) returns (tally: Tally, thrown: bool)
    ensures thrown <==> exists k :: 0 <= k < |nodes| && Throws(nodes[k])
    ensures !thrown ==> tally == TallyOf(nodes)
  {
    tally := Tally({}, {}, 0, 0.0, 0, 0);
    thrown := false;
    assert nodes[..0] == [];
    for i := 0 to |nodes|
      invariant forall k :: 0 <= k < i ==> !Throws(nodes[k])
      invariant tally == TallyOf(nodes[..i])
    {
      assert nodes[..i + 1] == nodes[..i] + [nodes[i]];
      TallyStep(nodes[..i], nodes[i]);
      tally, thrown := VisitNode(nodes[i], tally);
      if thrown {
        return;
      }
    }
    assert nodes[..|nodes|] == nodes;
  }

  // ---------------------------------------------------------------- properties

  /** Rounding a whole number changes nothing, so `vertices` is the exact sum. */
  lemma RoundOfInteger(k: int)
    ensures Round(k as real) == k
  {
  }

  /** The textures counted are exactly those of the materials counted: a
      material shared by several meshes contributes its textures once. */
  lemma TexturesOfCountedMaterials(nodes: seq<Node>)
    ensures TexturesIn(nodes) == set m, t | m in MaterialsIn(nodes) && t in MaterialTextures(m) :: t
  {
  }

  /** The number of triangles when every face count is a whole number. */
  function WholeFaces(nodes: seq<Node>): int
    decreases |nodes|
  {
    if nodes == [] then 0
    else
      var n := nodes[|nodes| - 1];
      var g := if n.mesh.Some? then n.mesh.value.geometry else Geometry(None, None);
      WholeFaces(nodes[..|nodes| - 1]) +
        (if n.mesh.None? then 0
         else if g.indexCount.Some? then g.indexCount.value / 3
         else if g.positionCount.Some? then g.positionCount.value / 3
         else 0)
  }

  /** The count the faces of a node are read from. */
  function FaceSource(n: Node): nat {
    if n.mesh.None? then 0
    else
      var g := n.mesh.value.geometry;
      if g.indexCount.Some? then g.indexCount.value
      else if g.positionCount.Some? then g.positionCount.value
      else 0
  }

  lemma {:induction false} FaceSumOfTriangles(nodes: seq<Node>)
    requires forall n :: n in nodes ==> FaceSource(n) % 3 == 0
    ensures FaceSum(nodes) == WholeFaces(nodes) as real
    decreases |nodes|
  {
    if nodes != [] {
      var init, n := nodes[..|nodes| - 1], nodes[|nodes| - 1];
      assert forall x :: x in init ==> x in nodes;
      FaceSumOfTriangles(init);
      var c := FaceSource(n);
      assert c == (c / 3) * 3;
      assert NodeFaces(n) == (c / 3) as real;
    }
  }

  /** When every mesh is made of whole triangles, `faces` is exactly their number. */
  lemma FacesOfTriangleMeshes(nodes: seq<Node>)
    requires forall n :: n in nodes ==> FaceSource(n) % 3 == 0
    ensures Round(FaceSum(nodes)) == WholeFaces(nodes)
  {
    FaceSumOfTriangles(nodes);
  }

  /** The number of mesh nodes in a tree, counted over the tree's shape. */
  function TreeMeshCount(n: Node): nat
    decreases n, 1
  {
    (if n.mesh.Some? then 1 else 0) + ForestMeshCount(n.children)
  }

  function ForestMeshCount(ns: seq<Node>): nat
    decreases ns, 0
  {
    if ns == [] then 0 else TreeMeshCount(ns[0]) + ForestMeshCount(ns[1..])
  }

  /** The traversal visits every mesh of the tree exactly once. */
  lemma {:induction false} TraverseMeshCount(n: Node)
    ensures |Filter(Traverse(n), IsMeshNode)| == TreeMeshCount(n)
    decreases n, 1
  {
    FilterConcat([n], TraverseAll(n.children), IsMeshNode);
    assert [n][..0] == [];
    TraverseAllMeshCount(n.children);
  }

  lemma {:induction false} TraverseAllMeshCount(ns: seq<Node>)
    ensures |Filter(TraverseAll(ns), IsMeshNode)| == ForestMeshCount(ns)
    decreases ns, 0
  {
    if ns != [] {
      FilterConcat(Traverse(ns[0]), TraverseAll(ns[1..]), IsMeshNode);
      TraverseMeshCount(ns[0]);
      TraverseAllMeshCount(ns[1..]);
    }
  }
}
