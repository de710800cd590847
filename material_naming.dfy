/** Naming one material per texture file, the loop both Blender scripts share
    (`MATERIAL_OT_apply_folder.execute` and `MATERIAL_OT_apply_multiple.execute`):
    the material is named after the file's stem, with the `__SINGLE__` prefix in
    single mode; a file whose material would be of the other type is skipped; a
    name met before gets the extension appended; a file whose image fails to
    load gets no material applied.

    The scripts record in `material_names_seen` only names met for the first
    time, so a renamed material can still collide with a later file's stem
    (`AsWrittenPlan`, `DuplicateNameAsWritten`). The model applies the repaired
    rule, which records every name it hands out (`Plan`, `PlanMaterials`), and
    proves that it never repeats a name for the files `get_texture_files`
    returns (`PlanForFolderDistinct`). */
module MaterialNaming {
  import opened Text
  import opened Seqs
  import opened TextureFiles
  import opened BlenderData

  /** `material_prefix`: none for multipl materials, `__SINGLE__` for single ones. */
  function Prefix(isMultipl: bool): (p: string)
    ensures isMultipl ==> p == ""
    ensures !isMultipl ==> p == SinglePrefix
  {
    if isMultipl then "" else SinglePrefix
  }

  function BaseName(f: FileName, isMultipl: bool): string {
    Prefix(isMultipl) + f.stem
  }

  /** Python's `suffix[1:]`. */
  function SuffixWithoutDot(suffix: string): string {
    if suffix == [] then [] else suffix[1..]
  }

  /** The name given to a repeated base name: `prefix + stem + "_" + suffix[1:]`. */
  function RenamedName(f: FileName, isMultipl: bool): string {
    Prefix(isMultipl) + f.stem + "_" + SuffixWithoutDot(f.suffix)
  }

  /** The type check: in multipl mode a stem with the single prefix is skipped;
      in single mode a name without it would be (it never is, the prefix is added). */
  predicate Skipped(f: FileName, isMultipl: bool) {
    (isMultipl && IsSingleName(BaseName(f, isMultipl)))
    || (!isMultipl && !IsSingleName(BaseName(f, isMultipl)))
  }

  function ChooseName(taken: set<string>, f: FileName, isMultipl: bool): string {
    if BaseName(f, isMultipl) in taken then RenamedName(f, isMultipl) else BaseName(f, isMultipl)
  }

  // ---------------------------------------------------------------- as written

  /** The keys of `material_names_seen` as the scripts fill it: the base names
      of the files not skipped; a renamed name is never recorded. */
  function FirstNames(files: seq<FileName>, isMultipl: bool): set<string>
    decreases |files|
  {
    if files == [] then {}
    else
      var last := files[|files| - 1];
      FirstNames(files[..|files| - 1], isMultipl)
        + (if Skipped(last, isMultipl) then {} else {BaseName(last, isMultipl)})
  }

  /** `materials_to_apply` as the scripts compute it. */
  function AsWrittenPlan(files: seq<FileName>, isMultipl: bool, imageLoads: FileName -> bool): (r: seq<string>)
    ensures |r| <= |files|
    decreases |files|
  {
    if files == [] then []
    else
      var init, last := files[..|files| - 1], files[|files| - 1];
      AsWrittenPlan(init, isMultipl, imageLoads)
        + (if !Skipped(last, isMultipl) && imageLoads(last)
           then [ChooseName(FirstNames(init, isMultipl), last, isMultipl)] else [])
  }

  lemma FirstNamesStep(files: seq<FileName>, i: int, isMultipl: bool)
    requires 0 <= i < |files|
    ensures FirstNames(files[..i + 1], isMultipl) ==
      FirstNames(files[..i], isMultipl) + (if Skipped(files[i], isMultipl) then {} else {BaseName(files[i], isMultipl)})
  {
    assert files[..i + 1][..i] == files[..i];
  }

  lemma AsWrittenPlanStep(files: seq<FileName>, i: int, isMultipl: bool, imageLoads: FileName -> bool)
    requires 0 <= i < |files|
    ensures AsWrittenPlan(files[..i + 1], isMultipl, imageLoads) ==
      AsWrittenPlan(files[..i], isMultipl, imageLoads)
        + (if !Skipped(files[i], isMultipl) && imageLoads(files[i])
           then [ChooseName(FirstNames(files[..i], isMultipl), files[i], isMultipl)] else [])
  {
    assert files[..i + 1][..i] == files[..i];
  }

  /** The scripts record exactly the base names of the files not skipped. */
  lemma {:induction false} FirstNamesMembers(files: seq<FileName>, isMultipl: bool, x: string)
    ensures x in FirstNames(files, isMultipl) <==>
      exists j :: 0 <= j < |files| && !Skipped(files[j], isMultipl) && BaseName(files[j], isMultipl) == x
    decreases |files|
  {
    if files != [] {
      var init := files[..|files| - 1];
      FirstNamesMembers(init, isMultipl, x);
      if exists j :: 0 <= j < |init| && !Skipped(init[j], isMultipl) && BaseName(init[j], isMultipl) == x {
        var j :| 0 <= j < |init| && !Skipped(init[j], isMultipl) && BaseName(init[j], isMultipl) == x;
        assert files[j] == init[j];
      }
      if exists j :: 0 <= j < |files| && !Skipped(files[j], isMultipl) && BaseName(files[j], isMultipl) == x {
        var j :| 0 <= j < |files| && !Skipped(files[j], isMultipl) && BaseName(files[j], isMultipl) == x;
        if j < |init| {
          assert init[j] == files[j];
        }
      }
    }
  }

  /** One file's turn in the scripts' loop: a base name seen before is
      renamed and not recorded; a new one is recorded under the file's name. */
  method TakeNameAsWritten(seen: map<string, string>, f: FileName, isMultipl: bool)
    returns (name: string, seen': map<string, string>)
    ensures name == ChooseName(seen.Keys, f, isMultipl)
    ensures seen'.Keys == seen.Keys + {BaseName(f, isMultipl)}
  {
    name := Prefix(isMultipl) + f.stem;
    seen' := seen;
    if name in seen {
      name := Prefix(isMultipl) + f.stem + "_" + SuffixWithoutDot(f.suffix);
    } else {
      seen' := seen[name := Name(f)];
    }
  }

  /** The naming loop exactly as the scripts write it: a name goes into the
      seen-map only when it is a base name not seen before. */
  method PlanMaterialsAsWritten(files: seq<FileName>, isMultipl: bool, imageLoads: FileName -> bool)
    returns (materialsToApply: seq<string>, seen: map<string, string>)
    ensures materialsToApply == AsWrittenPlan(files, isMultipl, imageLoads)
    ensures seen.Keys == FirstNames(files, isMultipl)
  {
    var prefix := Prefix(isMultipl);
    materialsToApply := [];
    seen := map[];
    for i := 0 to |files|
      invariant materialsToApply == AsWrittenPlan(files[..i], isMultipl, imageLoads)
      invariant seen.Keys == FirstNames(files[..i], isMultipl)
    {
      var textureFile := files[i];
      FirstNamesStep(files, i, isMultipl);
      AsWrittenPlanStep(files, i, isMultipl, imageLoads);
      var materialName := prefix + textureFile.stem;
      assert materialName == BaseName(textureFile, isMultipl);
      if isMultipl && IsSingleName(materialName) {
        continue;
      }
      if !isMultipl && !IsSingleName(materialName) {
        continue;
      }
      materialName, seen := TakeNameAsWritten(seen, textureFile, isMultipl);
      if !imageLoads(textureFile) {
        continue;
      }
      materialsToApply := materialsToApply + [materialName];
    }
    assert files[..|files|] == files;
  }

  // ---------------------------------------------------------------- repaired

  /** The keys of the seen-map when every name handed out is recorded. */
  function RecordedNames(files: seq<FileName>, isMultipl: bool): set<string>
    decreases |files|
  {
    if files == [] then {}
    else
      var prev := RecordedNames(files[..|files| - 1], isMultipl);
      var last := files[|files| - 1];
      prev + (if Skipped(last, isMultipl) then {} else {ChooseName(prev, last, isMultipl)})
  }

  /** The material name file i is given. */
  function NameAt(files: seq<FileName>, i: int, isMultipl: bool): string
    requires 0 <= i < |files|
  {
    ChooseName(RecordedNames(files[..i], isMultipl), files[i], isMultipl)
  }

  /** `materials_to_apply` under the repaired rule. */
  function Plan(files: seq<FileName>, isMultipl: bool, imageLoads: FileName -> bool): seq<string>
    decreases |files|
  {
    if files == [] then []
    else
      var init, last := files[..|files| - 1], files[|files| - 1];
      Plan(init, isMultipl, imageLoads)
        + (if !Skipped(last, isMultipl) && imageLoads(last)
           then [ChooseName(RecordedNames(init, isMultipl), last, isMultipl)] else [])
  }

  lemma RecordedNamesStep(files: seq<FileName>, i: int, isMultipl: bool)
    requires 0 <= i < |files|
    ensures RecordedNames(files[..i + 1], isMultipl) ==
      RecordedNames(files[..i], isMultipl) + (if Skipped(files[i], isMultipl) then {} else {NameAt(files, i, isMultipl)})
  {
    assert files[..i + 1][..i] == files[..i];
  }

  lemma PlanStep(files: seq<FileName>, i: int, isMultipl: bool, imageLoads: FileName -> bool)
    requires 0 <= i < |files|
    ensures Plan(files[..i + 1], isMultipl, imageLoads) ==
      Plan(files[..i], isMultipl, imageLoads)
        + (if !Skipped(files[i], isMultipl) && imageLoads(files[i]) then [NameAt(files, i, isMultipl)] else [])
  {
    assert files[..i + 1][..i] == files[..i];
  }

  /** The file names a seen-map may hold as values. */
  function FileNamesOf(files: seq<FileName>): set<string> {
    set f | f in files :: Name(f)
  }

  /** The naming loop, repaired: every name handed out goes into the seen-map. */
  method PlanMaterials(files: seq<FileName>, isMultipl: bool, imageLoads: FileName -> bool)
    returns (materialsToApply: seq<string>, seen: map<string, string>)
    ensures materialsToApply == Plan(files, isMultipl, imageLoads)
    ensures seen.Keys == RecordedNames(files, isMultipl)
    ensures forall k :: k in seen ==> seen[k] in FileNamesOf(files)
  {
    var prefix := Prefix(isMultipl);
    materialsToApply := [];
    seen := map[];
    for i := 0 to |files|
      invariant materialsToApply == Plan(files[..i], isMultipl, imageLoads)
      invariant seen.Keys == RecordedNames(files[..i], isMultipl)
      invariant forall k :: k in seen ==> seen[k] in FileNamesOf(files)
    {
      var textureFile := files[i];
      assert textureFile in files;
      RecordedNamesStep(files, i, isMultipl);
      PlanStep(files, i, isMultipl, imageLoads);
      var materialName := prefix + textureFile.stem;
      assert materialName == BaseName(textureFile, isMultipl);
      if isMultipl && IsSingleName(materialName) {
        continue;
      }
      if !isMultipl && !IsSingleName(materialName) {
        continue;
      }
      if materialName in seen {
        materialName := prefix + textureFile.stem + "_" + SuffixWithoutDot(textureFile.suffix);
      }
      assert materialName == NameAt(files, i, isMultipl);
      seen := seen[materialName := Name(textureFile)];
      assert seen.Keys == RecordedNames(files[..i + 1], isMultipl);
      if !imageLoads(textureFile) {
        continue;
      }
      materialsToApply := materialsToApply + [materialName];
    }
    assert files[..|files|] == files;
  }

  // ---------------------------------------------------------------- properties

  /** What `get_texture_files` guarantees of a suffix: a dot, then no underscore. */
  predicate DottedSuffix(suffix: string) {
    |suffix| > 0 && suffix[0] == '.' && '_' !in suffix
  }

  lemma TextureSuffixIsDotted(suffix: string, foldsCase: bool)
    requires IsTextureSuffix(suffix, foldsCase)
    ensures DottedSuffix(suffix)
  {
    var exts := SupportedExtensions;
    assert forall e :: e in exts ==> DottedSuffix(e);
    if !foldsCase && suffix in exts {
    } else {
      var lower := Lower(suffix);
      assert DottedSuffix(lower);
      forall k | 0 <= k < |suffix|
        ensures suffix[k] != '_'
      {
        assert lower[k] == LowerChar(suffix[k]);
        assert lower[k] in lower;
      }
    }
  }

  /** Where the tails differ in length, the longer one holds the separator. */
  lemma LongerTailHoldsSeparator(a: string, x: string, b: string, y: string)
    requires a + "_" + x == b + "_" + y
    requires |x| < |y|
    ensures '_' in y
  {
    var s := a + "_" + x;
    var k := |s| - |x| - 1;
    assert s[k] == '_';
    assert s[k] == y[|y| - |x| - 1];
    assert y[|y| - |x| - 1] in y;
  }

  /** Splitting at the last underscore is unique when the tails have none. */
  lemma SplitAtUnderscore(a: string, x: string, b: string, y: string)
    requires '_' !in x && '_' !in y
    requires a + "_" + x == b + "_" + y
    ensures a == b && x == y
  {
    if |x| < |y| {
      LongerTailHoldsSeparator(a, x, b, y);
      assert false;
    } else if |y| < |x| {
      LongerTailHoldsSeparator(b, y, a, x);
      assert false;
    } else {
      var s := a + "_" + x;
      assert x == s[|s| - |x|..] == y;
      assert a == s[..|a|] == b;
    }
  }

  /** Lower-casing around one separator character that has no case. */
  lemma LowerAroundSeparator(a: string, c: char, b: string)
    requires c == '.' || c == '_'
    ensures Lower(a + [c] + b) == Lower(a) + [c] + Lower(b)
  {
    LowerConcat(a + [c], b);
    LowerConcat(a, [c]);
  }

  /** A file named `stem_ext...` sorts strictly after `stem.ext`, since '.' < '_'. */
  lemma RenamedStemSortsAfter(fi: FileName, fj: FileName)
    requires DottedSuffix(fi.suffix)
    requires fj.stem == fi.stem + "_" + SuffixWithoutDot(fi.suffix)
    ensures !LessEq(LowerName(fj), LowerName(fi))
  {
    var e := SuffixWithoutDot(fi.suffix);
    assert Name(fi) == fi.stem + ['.'] + e by {
      assert fi.suffix == ['.'] + e;
    }
    assert Name(fj) == fi.stem + ['_'] + (e + fj.suffix);
    LowerAroundSeparator(fi.stem, '.', e);
    LowerAroundSeparator(fi.stem, '_', e + fj.suffix);
    FirstDifferenceDecides(Lower(fi.stem), '.', Lower(e), '_', Lower(e + fj.suffix));
  }

  /** An earlier file in sorted order cannot carry another file's renamed name
      as its plain name. */
  lemma BaseIsNotRenamed(fi: FileName, fj: FileName, p: string)
    requires DottedSuffix(fi.suffix)
    requires LessEq(LowerName(fj), LowerName(fi))
    ensures p + fj.stem != p + fi.stem + "_" + SuffixWithoutDot(fi.suffix)
  {
    var renamed := fi.stem + "_" + SuffixWithoutDot(fi.suffix);
    if p + fj.stem == p + renamed {
      assert fj.stem == (p + fj.stem)[|p|..] == (p + renamed)[|p|..] == renamed;
      RenamedStemSortsAfter(fi, fj);
      assert false;
    }
  }

  /** Two files with dotted suffixes get the same renamed name only if they are
      the same file. */
  lemma RenamedIsInjective(fi: FileName, fj: FileName, p: string)
    requires DottedSuffix(fi.suffix) && DottedSuffix(fj.suffix)
    ensures p + fj.stem + "_" + SuffixWithoutDot(fj.suffix) == p + fi.stem + "_" + SuffixWithoutDot(fi.suffix) ==> fi == fj
  {
    var ei, ej := SuffixWithoutDot(fi.suffix), SuffixWithoutDot(fj.suffix);
    if p + fj.stem + "_" + ej == p + fi.stem + "_" + ei {
      assert fj.stem + "_" + ej == (p + fj.stem + "_" + ej)[|p|..] == (p + fi.stem + "_" + ei)[|p|..] == fi.stem + "_" + ei;
      assert '_' !in ei by {
        forall k | 0 <= k < |ei| ensures ei[k] != '_' {
          assert ei[k] == fi.suffix[k + 1] && fi.suffix[k + 1] in fi.suffix;
        }
      }
      assert '_' !in ej by {
        forall k | 0 <= k < |ej| ensures ej[k] != '_' {
          assert ej[k] == fj.suffix[k + 1] && fj.suffix[k + 1] in fj.suffix;
        }
      }
      SplitAtUnderscore(fj.stem, ej, fi.stem, ei);
      assert fi.suffix == "." + ei && fj.suffix == "." + ej;
    }
  }

  /** Every name in the seen-map was handed out to some earlier file. */
  lemma {:induction false} RecordedNameHasOwner(files: seq<FileName>, i: int, isMultipl: bool, x: string)
    requires 0 <= i <= |files|
    requires x in RecordedNames(files[..i], isMultipl)
    ensures exists j :: 0 <= j < i && !Skipped(files[j], isMultipl) && NameAt(files, j, isMultipl) == x
  {
    assert i > 0;
    RecordedNamesStep(files, i - 1, isMultipl);
    if x in RecordedNames(files[..i - 1], isMultipl) {
      RecordedNameHasOwner(files, i - 1, isMultipl, x);
      var j :| 0 <= j < i - 1 && !Skipped(files[j], isMultipl) && NameAt(files, j, isMultipl) == x;
      assert 0 <= j < i;
    } else {
      assert !Skipped(files[i - 1], isMultipl) && NameAt(files, i - 1, isMultipl) == x;
    }
  }

  /** Every name handed out stays in the seen-map. */
  lemma {:induction false} RecordedNameKept(files: seq<FileName>, j: int, i: int, isMultipl: bool)
    requires 0 <= j < i <= |files|
    requires !Skipped(files[j], isMultipl)
    ensures NameAt(files, j, isMultipl) in RecordedNames(files[..i], isMultipl)
  {
    RecordedNamesStep(files, i - 1, isMultipl);
    if j < i - 1 {
      RecordedNameKept(files, j, i - 1, isMultipl);
    }
  }

  /** The seen-map's keys are exactly the names handed out so far. */
  lemma RecordedNamesMembers(files: seq<FileName>, i: int, isMultipl: bool, x: string)
    requires 0 <= i <= |files|
    ensures x in RecordedNames(files[..i], isMultipl) <==>
      exists j :: 0 <= j < i && !Skipped(files[j], isMultipl) && NameAt(files, j, isMultipl) == x
  {
    if x in RecordedNames(files[..i], isMultipl) {
      RecordedNameHasOwner(files, i, isMultipl, x);
    }
    if exists j :: 0 <= j < i && !Skipped(files[j], isMultipl) && NameAt(files, j, isMultipl) == x {
      var j :| 0 <= j < i && !Skipped(files[j], isMultipl) && NameAt(files, j, isMultipl) == x;
      RecordedNameKept(files, j, i, isMultipl);
    }
  }

  /** The files a plan is made from, as `get_texture_files` returns them. */
  predicate WellFormedFiles(files: seq<FileName>) {
    && NoDuplicates(files)
    && SortedBy(files, LowerName)
    && forall f :: f in files ==> DottedSuffix(f.suffix)
  }

  /** A renamed name handed out earlier is never some later file's renamed name. */
  lemma EarlierNameDiffers(files: seq<FileName>, j: int, i: int, isMultipl: bool)
    requires WellFormedFiles(files)
    requires 0 <= j < i < |files|
    ensures NameAt(files, j, isMultipl) != RenamedName(files[i], isMultipl)
  {
    var fi, fj, p := files[i], files[j], Prefix(isMultipl);
    assert fi in files && fj in files;
    SortedByPairs(files, LowerName, j, i);
    BaseIsNotRenamed(fi, fj, p);
    RenamedIsInjective(fi, fj, p);
  }

  /** The name given to a file has not been handed out before. */
  lemma NameAtIsFresh(files: seq<FileName>, i: int, isMultipl: bool)
    requires WellFormedFiles(files)
    requires 0 <= i < |files|
    ensures NameAt(files, i, isMultipl) !in RecordedNames(files[..i], isMultipl)
  {
    var renamed := RenamedName(files[i], isMultipl);
    RecordedNamesMembers(files, i, isMultipl, renamed);
    forall j | 0 <= j < i
      ensures NameAt(files, j, isMultipl) != renamed
    {
      EarlierNameDiffers(files, j, i, isMultipl);
    }
  }

  lemma NoDuplicatesAppend<T>(s: seq<T>, x: T)
    requires NoDuplicates(s) && x !in s
    ensures NoDuplicates(s + [x])
  {
  }

  /** Every name the repaired plan applies is recorded, and none is repeated. */
  lemma {:induction false} PlanDistinctPrefix(files: seq<FileName>, i: int, isMultipl: bool, imageLoads: FileName -> bool)
    requires WellFormedFiles(files)
    requires 0 <= i <= |files|
    ensures NoDuplicates(Plan(files[..i], isMultipl, imageLoads))
    ensures forall x :: x in Plan(files[..i], isMultipl, imageLoads) ==> x in RecordedNames(files[..i], isMultipl)
  {
    if i > 0 {
      var k := i - 1;
      PlanDistinctPrefix(files, k, isMultipl, imageLoads);
      PlanStep(files, k, isMultipl, imageLoads);
      RecordedNamesStep(files, k, isMultipl);
      if !Skipped(files[k], isMultipl) && imageLoads(files[k]) {
        NameAtIsFresh(files, k, isMultipl);
        NoDuplicatesAppend(Plan(files[..k], isMultipl, imageLoads), NameAt(files, k, isMultipl));
      }
    }
  }

  /** For the files `get_texture_files` returns, the repaired rule gives every
      applied material a name of its own. */
  lemma PlanForFolderDistinct(entries: seq<Entry>, foldsCase: bool, isMultipl: bool, imageLoads: FileName -> bool)
    ensures NoDuplicates(Plan(TextureFilesOf(entries, foldsCase), isMultipl, imageLoads))
  {
    var files := TextureFilesOf(entries, foldsCase);
    TextureFilesSpec(entries, foldsCase);
    forall f | f in files
      ensures DottedSuffix(f.suffix)
    {
      TextureSuffixIsDotted(f.suffix, foldsCase);
    }
    PlanDistinctPrefix(files, |files|, isMultipl, imageLoads);
    assert files[..|files|] == files;
  }

  /** Three sorted, distinct files whose names collide under the scripts' rule. */
  const CollidingFiles: seq<FileName> := [FileName("a", ".jpg"), FileName("a", ".png"), FileName("a_png", ".bmp")]

  function AllLoad(f: FileName): bool { true }

  lemma ConcreteNames()
    ensures !IsSingleName("a") && !IsSingleName("a_png")
    ensures BaseName(CollidingFiles[0], true) == "a" && BaseName(CollidingFiles[1], true) == "a"
    ensures BaseName(CollidingFiles[2], true) == "a_png"
    ensures RenamedName(CollidingFiles[1], true) == "a_png" && RenamedName(CollidingFiles[2], true) == "a_png_bmp"
    ensures CollidingFiles[..2][..1] == CollidingFiles[..1] && CollidingFiles[..1][..0] == []
  {
    assert SuffixWithoutDot(".png") == "png" && SuffixWithoutDot(".bmp") == "bmp";
  }

  lemma CollidingFilesLowerNames()
    ensures LowerName(CollidingFiles[0]) == "a" + ['.'] + "jpg"
    ensures LowerName(CollidingFiles[1]) == "a" + ['.'] + "png"
    ensures LowerName(CollidingFiles[2]) == "a" + ['_'] + "png.bmp"
  {
  }

  lemma CollidingFilesWellFormed()
    ensures WellFormedFiles(CollidingFiles)
  {
    var f := CollidingFiles;
    CollidingFilesLowerNames();
    FirstDifferenceDecides("a" + ['.'], 'j', "pg", 'p', "ng");
    assert "a" + ['.'] + ['j'] + "pg" == "a" + ['.'] + "jpg";
    assert "a" + ['.'] + ['p'] + "ng" == "a" + ['.'] + "png";
    FirstDifferenceDecides("a", '.', "png", '_', "png.bmp");
    assert SortedBy(f, LowerName);
    assert forall g :: g in f ==> DottedSuffix(g.suffix);
  }

  lemma CollidingFilesAsWritten()
    ensures AsWrittenPlan(CollidingFiles, true, AllLoad) == ["a", "a_png", "a_png"]
  {
    var f := CollidingFiles;
    ConcreteNames();
    assert FirstNames(f[..1], true) == {"a"};
    assert FirstNames(f[..2], true) == {"a"};
    assert AsWrittenPlan(f[..1], true, AllLoad) == ["a"];
    assert AsWrittenPlan(f[..2], true, AllLoad) == ["a", "a_png"];
  }

  lemma CollidingFilesRepaired()
    ensures Plan(CollidingFiles, true, AllLoad) == ["a", "a_png", "a_png_bmp"]
  {
    var f := CollidingFiles;
    ConcreteNames();
    assert RecordedNames(f[..1], true) == {"a"};
    assert RecordedNames(f[..2], true) == {"a", "a_png"};
    assert Plan(f[..1], true, AllLoad) == ["a"];
    assert Plan(f[..2], true, AllLoad) == ["a", "a_png"];
  }

  /** The scripts' own rule repeats a name: `a.jpg`, `a.png`, `a_png.bmp` (sorted,
      distinct, all loading) give `a`, `a_png`, `a_png`; the repaired rule gives
      `a`, `a_png`, `a_png_bmp`. */
  lemma DuplicateNameAsWritten()
    ensures WellFormedFiles(CollidingFiles)
    ensures !NoDuplicates(AsWrittenPlan(CollidingFiles, true, AllLoad))
    ensures NoDuplicates(Plan(CollidingFiles, true, AllLoad))
  {
    CollidingFilesWellFormed();
    CollidingFilesAsWritten();
    assert AsWrittenPlan(CollidingFiles, true, AllLoad)[1] == AsWrittenPlan(CollidingFiles, true, AllLoad)[2];
    CollidingFilesRepaired();
  }

  /** Two files whose stem is one underscore short of the single prefix. */
  const PrefixLikeFiles: seq<FileName> := [FileName("__SINGLE_", ".jpg"), FileName("__SINGLE_", ".png")]

  /** The names involved, computed once. */
  lemma PrefixLikeNames()
    ensures !IsSingleName("__SINGLE_") && IsSingleName("__SINGLE__png")
    ensures BaseName(PrefixLikeFiles[0], true) == "__SINGLE_" && BaseName(PrefixLikeFiles[1], true) == "__SINGLE_"
    ensures RenamedName(PrefixLikeFiles[1], true) == "__SINGLE__png"
  {
    assert "__SINGLE__png"[..|SinglePrefix|] == SinglePrefix;
  }

  /** Whatever the stem, `stem.jpg` sorts before `stem.png`. */
  lemma JpgBeforePng(stem: string)
    ensures LessEq(LowerName(FileName(stem, ".jpg")), LowerName(FileName(stem, ".png")))
  {
    LowerAroundSeparator(stem, '.', "jpg");
    LowerAroundSeparator(stem, '.', "png");
    assert Lower("jpg") == ['j'] + "pg" && Lower("png") == ['p'] + "ng";
    FirstDifferenceDecides(Lower(stem) + ['.'], 'j', "pg", 'p', "ng");
    assert LowerName(FileName(stem, ".jpg")) == Lower(stem) + ['.'] + ['j'] + "pg";
    assert LowerName(FileName(stem, ".png")) == Lower(stem) + ['.'] + ['p'] + "ng";
  }

  lemma PrefixLikeFilesWellFormed()
    ensures WellFormedFiles(PrefixLikeFiles)
  {
    var f := PrefixLikeFiles;
    JpgBeforePng("__SINGLE_");
    assert DottedSuffix(".jpg") && DottedSuffix(".png");
    assert f[0].suffix != f[1].suffix;
  }

  /** In multipl mode the type check passes `__SINGLE_.jpg` and `__SINGLE_.png`,
      since neither base name carries the single prefix, but the second is
      renamed to `__SINGLE__png`, which does: under either naming rule a
      multipl folder then hands out a single-type material. */
  lemma PrefixLikeRenamedIsSingle()
    ensures WellFormedFiles(PrefixLikeFiles)
    ensures forall f :: f in PrefixLikeFiles ==> !Skipped(f, true)
    ensures Plan(PrefixLikeFiles, true, AllLoad) == ["__SINGLE_", "__SINGLE__png"]
    ensures AsWrittenPlan(PrefixLikeFiles, true, AllLoad) == ["__SINGLE_", "__SINGLE__png"]
    ensures IsSingleName(Plan(PrefixLikeFiles, true, AllLoad)[1])
  {
    PrefixLikeFilesWellFormed();
    PrefixLikeNames();
    var f := PrefixLikeFiles;
    assert RecordedNames(f[..1], true) == {"__SINGLE_"};
    assert FirstNames(f[..1], true) == {"__SINGLE_"};
    assert Plan(f[..1], true, AllLoad) == ["__SINGLE_"];
    assert AsWrittenPlan(f[..1], true, AllLoad) == ["__SINGLE_"];
  }

  /** In single mode every planned name carries the single prefix, so a later
      cleanup keeps it. In multipl mode the type check only looks at base
      names: a planned name carries the prefix only when it is some file's
      renamed name, and `PrefixLikeRenamedIsSingle` shows that this happens. */
  lemma {:induction false} PlanNamesTyped(files: seq<FileName>, isMultipl: bool, imageLoads: FileName -> bool)
    ensures !isMultipl ==> forall x :: x in Plan(files, isMultipl, imageLoads) ==> IsSingleName(x)
    ensures isMultipl ==> forall i :: 0 <= i < |files| && !Skipped(files[i], isMultipl) ==> !IsSingleName(BaseName(files[i], isMultipl))
    ensures isMultipl ==> forall x :: x in Plan(files, isMultipl, imageLoads) && IsSingleName(x) ==>
      exists i :: 0 <= i < |files| && x == RenamedName(files[i], isMultipl)
    decreases |files|
  {
    if files != [] {
      var init, last := files[..|files| - 1], files[|files| - 1];
      PlanNamesTyped(init, isMultipl, imageLoads);
      if isMultipl {
        forall x | x in Plan(files, isMultipl, imageLoads) && IsSingleName(x)
          ensures exists i :: 0 <= i < |files| && x == RenamedName(files[i], isMultipl)
        {
          if x in Plan(init, isMultipl, imageLoads) {
            var i :| 0 <= i < |init| && x == RenamedName(init[i], isMultipl);
            assert files[i] == init[i];
          } else {
            assert x == RenamedName(files[|files| - 1], isMultipl);
          }
        }
      } else {
        var taken := RecordedNames(init, isMultipl);
        var n := ChooseName(taken, last, isMultipl);
        assert n == SinglePrefix + last.stem || n == SinglePrefix + (last.stem + "_" + SuffixWithoutDot(last.suffix));
        assert n[..|SinglePrefix|] == SinglePrefix;
      }
    }
  }

  /** A folder holding one texture gives exactly the single material
      `__SINGLE__` + stem, unless the image fails to load. */
  lemma SingleFilePlan(f: FileName, imageLoads: FileName -> bool)
    ensures Plan([f], false, imageLoads) == if imageLoads(f) then [SinglePrefix + f.stem] else []
  {
    assert [f][..0] == [];
    assert (SinglePrefix + f.stem)[..|SinglePrefix|] == SinglePrefix;
  }
}
