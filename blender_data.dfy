/** The part of Blender's data that the material-manager scripts read and
    write: a mesh object's material slots and the material index of each of its
    polygons. A material is its name (names are unique in `bpy.data.materials`). */
module BlenderData {
  import opened Text
  import opened Seqs
  import opened Arith

  /** Marks materials made from a folder holding a single texture. */
  const SinglePrefix: string := "__SINGLE__"

  predicate IsSingleName(name: string) {
    StartsWith(name, SinglePrefix)
  }

  /** An entry of `obj.data.materials`: empty (`None`) or a material. */
  datatype Slot = EmptySlot | MaterialSlot(name: string)

  /** What an operator's `execute` returns. */
  datatype OperatorResult = Finished | Cancelled

  /** How one call of the glTF exporter ends. */
  datatype ExportOutcome = Exported | TypeErrorRaised | OtherErrorRaised

  /** A value in the keyword arguments of `bpy.ops.export_scene.gltf`. */
  datatype ParamValue = Text(text: string) | Flag(flag: bool)

  type ExportParams = map<string, ParamValue>

  /** A selected mesh object together with its mesh data. */
  class MeshObject {
    const name: string
    var materials: seq<Slot>
    var polygons: seq<nat>

    constructor (name: string, materials: seq<Slot>, polygons: seq<nat>)
      ensures this.name == name && this.materials == materials && this.polygons == polygons
    {
      this.name := name;
      this.materials := materials;
      this.polygons := polygons;
    }
  }

  predicate DistinctObjects(objects: seq<MeshObject>) {
    forall i, j :: 0 <= i < j < |objects| ==> objects[i] != objects[j]
  }

  /** The slots made by appending the named materials in order. */
  function SlotsOf(names: seq<string>): (r: seq<Slot>)
    ensures |r| == |names|
    ensures forall i :: 0 <= i < |names| ==> r[i] == MaterialSlot(names[i])
  {
    seq(|names|, i requires 0 <= i < |names| => MaterialSlot(names[i]))
  }

  /** Polygon i gets material index i % n. */
  function CyclicIndices(count: nat, n: nat): (r: seq<nat>)
    requires n > 0
    ensures |r| == count
  {
    seq(count, i requires 0 <= i < count => i % n)
  }

  function Zeros(count: nat): (r: seq<nat>)
    ensures |r| == count
  {
    seq(count, i => 0)
  }

  /** Every cyclic index names an existing slot. */
  lemma CyclicIndicesInRange(count: nat, n: nat)
    requires n > 0
    ensures forall i :: 0 <= i < count ==> CyclicIndices(count, n)[i] < n
  {
  }

  lemma CyclicOccurrencesStep(m: nat, n: nat, k: nat)
    requires n > 0
    ensures Occurrences(CyclicIndices(m + 1, n), k) ==
      Occurrences(CyclicIndices(m, n), k) + (if m % n == k then 1 else 0)
  {
    assert CyclicIndices(m + 1, n)[..m] == CyclicIndices(m, n);
  }

  /** The cyclic assignment is balanced: slot k gets count / n polygons, plus
      one more for the first count % n slots. */
  lemma {:induction false} CyclicOccurrences(count: nat, n: nat, k: nat)
    requires n > 0 && k < n
    ensures Occurrences(CyclicIndices(count, n), k) == count / n + (if k < count % n then 1 else 0)
  {
    if count > 0 {
      var m := count - 1;
      CyclicOccurrences(m, n, k);
      CyclicOccurrencesStep(m, n, k);
      DivModSuccessor(m, n);
    }
  }

  /** Hence any two slots' polygon counts differ by at most one. */
  lemma CyclicBalanced(count: nat, n: nat, k1: nat, k2: nat)
    requires n > 0 && k1 < n && k2 < n
    ensures Occurrences(CyclicIndices(count, n), k1) <= Occurrences(CyclicIndices(count, n), k2) + 1
  {
    CyclicOccurrences(count, n, k1);
    CyclicOccurrences(count, n, k2);
  }

  /** The polygon loop of the multiple-material branch: when the object has
      polygons and material slots, polygon i gets index i % (number of slots). */
  method DistributeCyclically(obj: MeshObject)
    modifies obj
    ensures obj.materials == old(obj.materials)
    ensures obj.polygons ==
      if |old(obj.polygons)| > 0 && |obj.materials| > 0
      then CyclicIndices(|old(obj.polygons)|, |obj.materials|)
      else old(obj.polygons)
  {
    if |obj.polygons| > 0 && |obj.materials| > 0 {
      var numMaterials := |obj.materials|;
      for i := 0 to |obj.polygons|
        invariant |obj.polygons| == |old(obj.polygons)|
        invariant obj.materials == old(obj.materials)
        invariant forall j :: 0 <= j < i ==> obj.polygons[j] == j % numMaterials
      {
        obj.polygons := obj.polygons[i := i % numMaterials];
      }
    }
  }

  /** The polygon loop of the single-material branch: every polygon gets index 0. */
  method AssignFirstSlot(obj: MeshObject)
    modifies obj
    ensures obj.materials == old(obj.materials)
    ensures obj.polygons == Zeros(|old(obj.polygons)|)
  {
    for i := 0 to |obj.polygons|
      invariant |obj.polygons| == |old(obj.polygons)|
      invariant obj.materials == old(obj.materials)
      invariant forall j :: 0 <= j < i ==> obj.polygons[j] == 0
    {
      obj.polygons := obj.polygons[i := 0];
    }
  }
}
