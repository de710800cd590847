/** Finding texture images on disk, as the Blender material manager does it:
    `get_texture_files` (glob six extensions, drop duplicates, sort by lower-cased
    name) and `scan_texture_folders` (count distinct image names per sub-folder).
    The file system is an input: a directory is the sequence of its entries in
    `iterdir` order. */
module TextureFiles {
  import opened Text
  import opened Seqs

  /** A file name split the way pathlib splits it: `Path.stem` + `Path.suffix`. */
  datatype FileName = FileName(stem: string, suffix: string)

  function Name(f: FileName): string {
    f.stem + f.suffix
  }

  function LowerName(f: FileName): string {
    Lower(Name(f))
  }

  /** An entry of a directory listing: a regular file or a sub-directory. */
  datatype Entry = File(file: FileName) | Dir(name: string, entries: seq<Entry>)

  const SupportedExtensions: seq<string> := [".png", ".jpg", ".jpeg", ".bmp", ".tiff", ".tif"]

  /** The regular files of a listing, in listing order (`is_file()`). */
  function Files(entries: seq<Entry>): (r: seq<FileName>)
    ensures forall f :: f in r <==> File(f) in entries
    decreases |entries|
  {
    if entries == [] then []
    else
      var last := entries[|entries| - 1];
      Files(entries[..|entries| - 1]) + (if last.File? then [last.file] else [])
  }

  /** Does the glob pattern `"*" + ext` match the file? pathlib's glob folds
      case on Windows and does not on POSIX systems. */
  predicate GlobMatches(f: FileName, ext: string, foldsCase: bool) {
    if foldsCase then Lower(f.suffix) == Lower(ext) else f.suffix == ext
  }

  /** `texture_dir.glob("*" + ext)`, in listing order. */
  function Glob(entries: seq<Entry>, ext: string, foldsCase: bool): seq<FileName> {
    Filter(Files(entries), f => GlobMatches(f, ext, foldsCase))
  }

  /** What the extension loop has collected after the extensions `exts`:
      for each, the matches of the lower-case pattern, then of the upper-case one. */
  function GlobAll(entries: seq<Entry>, exts: seq<string>, foldsCase: bool): seq<FileName>
    decreases |exts|
  {
    if exts == [] then []
    else
      var ext := exts[|exts| - 1];
      GlobAll(entries, exts[..|exts| - 1], foldsCase)
        + (Glob(entries, ext, foldsCase) + Glob(entries, Upper(ext), foldsCase))
  }

  /** What `get_texture_files` returns for a folder with this listing. */
  function TextureFilesOf(entries: seq<Entry>, foldsCase: bool): seq<FileName> {
    SortBy(Dedupe(GlobAll(entries, SupportedExtensions, foldsCase)), LowerName)
  }

  /** A file is a texture when its suffix is one of the six extensions; a
      case-sensitive glob also accepts the all-upper-case spelling and no other. */
  predicate IsTextureSuffix(suffix: string, foldsCase: bool) {
    if foldsCase then Lower(suffix) in SupportedExtensions
    else suffix in SupportedExtensions || (Lower(suffix) in SupportedExtensions && suffix == Upper(Lower(suffix)))
  }

  /** The file matches the pattern for `ext` in lower or in upper case. */
  predicate MatchesExtension(f: FileName, ext: string, foldsCase: bool) {
    GlobMatches(f, ext, foldsCase) || GlobMatches(f, Upper(ext), foldsCase)
  }

  /** The file matches the pattern of one of the extensions. */
  predicate MatchesSome(f: FileName, exts: seq<string>, foldsCase: bool) {
    exists k :: 0 <= k < |exts| && MatchesExtension(f, exts[k], foldsCase)
  }

  lemma MatchesSomeStep(f: FileName, exts: seq<string>, foldsCase: bool)
    requires exts != []
    ensures MatchesSome(f, exts, foldsCase) <==>
      MatchesSome(f, exts[..|exts| - 1], foldsCase) || MatchesExtension(f, exts[|exts| - 1], foldsCase)
  {
    var n := |exts| - 1;
    var init := exts[..n];
    if MatchesSome(f, exts, foldsCase) {
      var k :| 0 <= k < |exts| && MatchesExtension(f, exts[k], foldsCase);
      if k < n {
        assert init[k] == exts[k];
      }
    }
    if MatchesSome(f, init, foldsCase) {
      var k :| 0 <= k < n && MatchesExtension(f, init[k], foldsCase);
      assert exts[k] == init[k];
    }
  }

  /** The extension loop collects exactly the listing's files that match one
      of the extensions. */
  lemma {:induction false} GlobAllMembers(entries: seq<Entry>, exts: seq<string>, foldsCase: bool, f: FileName)
    ensures f in GlobAll(entries, exts, foldsCase) <==> File(f) in entries && MatchesSome(f, exts, foldsCase)
    decreases |exts|
  {
    if exts != [] {
      var n := |exts| - 1;
      GlobAllMembers(entries, exts[..n], foldsCase, f);
      MatchesSomeStep(f, exts, foldsCase);
      var last := Glob(entries, exts[n], foldsCase) + Glob(entries, Upper(exts[n]), foldsCase);
      assert GlobAll(entries, exts, foldsCase) == GlobAll(entries, exts[..n], foldsCase) + last;
      assert f in last <==> File(f) in entries && MatchesExtension(f, exts[n], foldsCase);
    }
  }

  lemma SuffixMatchesSomeExtension(f: FileName, foldsCase: bool)
    ensures IsTextureSuffix(f.suffix, foldsCase) <==> MatchesSome(f, SupportedExtensions, foldsCase)
  {
    var exts := SupportedExtensions;
    forall k | 0 <= k < |exts|
      ensures Lower(exts[k]) == exts[k] && Lower(Upper(exts[k])) == exts[k]
    {
      LowerOfUpper(exts[k]);
    }
    if IsTextureSuffix(f.suffix, foldsCase) {
      var e := if foldsCase || f.suffix !in exts then Lower(f.suffix) else f.suffix;
      var k :| 0 <= k < |exts| && exts[k] == e;
      assert MatchesExtension(f, exts[k], foldsCase);
    }
  }

  /** The files `get_texture_files` returns are exactly the listing's files with a
      texture suffix, each once, sorted by lower-cased name. */
  lemma TextureFilesSpec(entries: seq<Entry>, foldsCase: bool)
    ensures forall f :: f in TextureFilesOf(entries, foldsCase) <==>
      File(f) in entries && IsTextureSuffix(f.suffix, foldsCase)
    ensures NoDuplicates(TextureFilesOf(entries, foldsCase))
    ensures SortedBy(TextureFilesOf(entries, foldsCase), LowerName)
  {
    var found := GlobAll(entries, SupportedExtensions, foldsCase);
    var r := TextureFilesOf(entries, foldsCase);
    assert multiset(r) == multiset(Dedupe(found));
    PermutationNoDuplicates(r, Dedupe(found));
    forall f
      ensures f in r <==> File(f) in entries && IsTextureSuffix(f.suffix, foldsCase)
    {
      assert f in r <==> f in multiset(r);
      GlobAllMembers(entries, SupportedExtensions, foldsCase, f);
      SuffixMatchesSomeExtension(f, foldsCase);
    }
  }

  /** `get_texture_files(folder_path)`. */
  method GetTextureFiles(entries: seq<Entry>, foldsCase: bool) returns (files: seq<FileName>)
    ensures files == TextureFilesOf(entries, foldsCase)
  {
    var found := GlobSupported(entries, foldsCase);
    files := SortBy(Dedupe(found), LowerName);
  }

  /** The glob loop over the six extensions, each also in upper case. */
  method GlobSupported(entries: seq<Entry>, foldsCase: bool) returns (found: seq<FileName>)
    ensures found == GlobAll(entries, SupportedExtensions, foldsCase)
  {
    found := [];
    for k := 0 to |SupportedExtensions|
      invariant found == GlobAll(entries, SupportedExtensions[..k], foldsCase)
    {
      var ext := SupportedExtensions[k];
      assert SupportedExtensions[..k + 1][..k] == SupportedExtensions[..k];
      found := found + (Glob(entries, ext, foldsCase) + Glob(entries, Upper(ext), foldsCase));
    }
    assert SupportedExtensions[..|SupportedExtensions|] == SupportedExtensions;
  }

  /** One row of the folder panel: `(folder_name, texture_count)`; the folder's
      path is the root joined with its name. */
  datatype FolderInfo = FolderInfo(name: string, textureCount: nat)

  function FolderKey(info: FolderInfo): string {
    Lower(info.name)
  }

  /** The distinct lower-cased names of a folder's image files. */
  function TextureNames(entries: seq<Entry>): set<string> {
    set f | f in Files(entries) && Lower(f.suffix) in SupportedExtensions :: LowerName(f)
  }

  /** The sub-folders that hold at least one image, in listing order. */
  function Candidates(root: seq<Entry>): (r: seq<FolderInfo>)
    ensures |r| <= |root|
    ensures forall info :: info in r <==>
      exists e :: e in root && e.Dir? && |TextureNames(e.entries)| > 0 &&
        info == FolderInfo(e.name, |TextureNames(e.entries)|)
    decreases |root|
  {
    if root == [] then []
    else
      var rest := Candidates(root[..|root| - 1]);
      var last := root[|root| - 1];
      assert root == root[..|root| - 1] + [last];
      if last.Dir? && |TextureNames(last.entries)| > 0
      then rest + [FolderInfo(last.name, |TextureNames(last.entries)|)]
      else rest
  }

  lemma TextureNamesStep(entries: seq<Entry>, j: int)
    requires 0 <= j < |entries|
    ensures TextureNames(entries[..j + 1]) ==
      TextureNames(entries[..j]) +
      (if entries[j].File? && Lower(entries[j].file.suffix) in SupportedExtensions
       then {LowerName(entries[j].file)} else {})
  {
    assert entries[..j + 1][..j] == entries[..j];
  }

  /** `scan_texture_folders(root_dir)`: only sub-folders with at least one
      distinct image name, each with that count, sorted by lower-cased name;
      nothing when the root does not exist. */
  method ScanTextureFolders(rootExists: bool, root: seq<Entry>) returns (folders: seq<FolderInfo>)
    ensures !rootExists ==> folders == []
    ensures rootExists ==> folders == SortBy(Candidates(root), FolderKey)
    ensures SortedBy(folders, FolderKey)
    ensures |folders| <= |root|
    ensures forall info :: info in folders ==>
      info.textureCount > 0 &&
      exists e :: e in root && e.Dir? && e.name == info.name && |TextureNames(e.entries)| == info.textureCount
    ensures rootExists ==> forall e :: e in root && e.Dir? && |TextureNames(e.entries)| > 0 ==>
      FolderInfo(e.name, |TextureNames(e.entries)|) in folders
  {
    folders := [];
    if !rootExists {
      return;
    }
    for k := 0 to |root|
      invariant folders == Candidates(root[..k])
    {
      var sub := root[k];
      assert root[..k + 1][..k] == root[..k];
      if sub.Dir? {
        var names: set<string> := {};
        for j := 0 to |sub.entries|
          invariant names == TextureNames(sub.entries[..j])
        {
          TextureNamesStep(sub.entries, j);
          var e := sub.entries[j];
          if e.File? {
            var extLower := Lower(e.file.suffix);
            if extLower in SupportedExtensions {
              names := names + {LowerName(e.file)};
            }
          }
        }
        assert sub.entries[..|sub.entries|] == sub.entries;
        var count := |names|;
        if count > 0 {
          folders := folders + [FolderInfo(sub.name, count)];
        }
      }
    }
    assert root[..|root|] == root;
    var unsorted := folders;
    folders := SortBy(folders, FolderKey);
    assert forall info :: info in folders <==> info in unsorted by {
      forall info ensures info in folders <==> info in unsorted {
        assert info in folders <==> info in multiset(folders);
        assert info in unsorted <==> info in multiset(unsorted);
      }
    }
  }
}
