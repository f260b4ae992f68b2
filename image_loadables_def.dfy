/**
 * Derived asset paths of an image definition (src/view/viewables/regeneration/image_loadables_def.cpp).
 * Paths are strings; `replace_extension` and `operator/` follow std::filesystem on POSIX paths.
 * GENERATED_FILES_DIR is a build-time macro whose value is not part of this model, so it is a parameter.
 */
module ImageLoadables {
  import opened Wrappers

  type Path = string

  const OFFICIAL_GFX_DIR: Path := "content/official/gfx"
  const NEON_MAP_EXTENSION: string := ".neon_map.png"
  const DESATURATION_EXTENSION: string := ".desaturation.png"

  /** Index of the last occurrence of `c` in `s`, or -1. */
  function LastIndexOf(s: string, c: char): (k: int)
    ensures -1 <= k < |s|
    ensures k >= 0 ==> s[k] == c && forall j | k < j < |s| :: s[j] != c
    ensures k == -1 ==> forall j | 0 <= j < |s| :: s[j] != c
  {
    if s == [] then -1
    else if s[|s| - 1] == c then |s| - 1
    else LastIndexOf(s[..|s| - 1], c)
  }

  /** Where the file name (the part after the last '/') starts. */
  function FilenameStart(p: Path): (k: nat)
    ensures k <= |p|
  {
    LastIndexOf(p, '/') + 1
  }

  /**
   * Where the extension starts, or |p| when there is none: the last '.' of the file name,
   * unless the name is "." or "..", or its only dot is its first character.
   */
  function ExtensionStart(p: Path): (k: nat)
    ensures FilenameStart(p) <= k <= |p|
    ensures k < |p| ==> p[k] == '.' && k > FilenameStart(p)
  {
    var f := p[FilenameStart(p)..];
    var d := LastIndexOf(f, '.');
    if f == "." || f == ".." || d <= 0 then |p| else FilenameStart(p) + d
  }

  /** `path.replace_extension(ext)`: drop the current extension, append the new one. */
  function ReplaceExtension(p: Path, ext: string): Path {
    var dotted := if ext != "" && ext[0] != '.' then "." + ext else ext;
    p[..ExtensionStart(p)] + dotted
  }

  /** `a / b` for relative or absolute `b`. */
  function Join(a: Path, b: Path): Path {
    if |b| > 0 && b[0] == '/' then b
    else if a == "" || a[|a| - 1] == '/' then a + b
    else a + "/" + b
  }

  function GetNeonMapPath(generatedDir: Path, fromSource: Path): Path {
    generatedDir + ReplaceExtension(fromSource, NEON_MAP_EXTENSION)
  }

  function GetDesaturationPath(generatedDir: Path, fromSource: Path): Path {
    generatedDir + ReplaceExtension(fromSource, DESATURATION_EXTENSION)
  }

  /** A path with its extension replaced keeps everything before the old extension and ends with the new one. */
  lemma ReplaceExtensionShape(p: Path, ext: string)
    requires |ext| > 0 && ext[0] == '.'
    ensures var r := ReplaceExtension(p, ext);
      |r| >= |ext| && r[|r| - |ext|..] == ext
      && r[..|r| - |ext|] == p[..ExtensionStart(p)]
      && r[..|r| - |ext|] <= p
  {
  }

  /** The derived neon-map path is the generated-files directory, then the source without its extension, then ".neon_map.png". */
  lemma NeonMapPathShape(generatedDir: Path, source: Path)
    ensures var r := GetNeonMapPath(generatedDir, source);
      generatedDir <= r && r == generatedDir + source[..ExtensionStart(source)] + NEON_MAP_EXTENSION
  {
  }

  /** The same scheme with ".desaturation.png". */
  lemma DesaturationPathShape(generatedDir: Path, source: Path)
    ensures var r := GetDesaturationPath(generatedDir, source);
      generatedDir <= r && r == generatedDir + source[..ExtensionStart(source)] + DESATURATION_EXTENSION
  {
  }

  /** The two generated files of one source image never collide. */
  lemma {:induction false} DerivedPathsDiffer(generatedDir: Path, source: Path)
    ensures GetNeonMapPath(generatedDir, source) != GetDesaturationPath(generatedDir, source)
  {
    var prefix := generatedDir + source[..ExtensionStart(source)];
    var n := GetNeonMapPath(generatedDir, source);
    var d := GetDesaturationPath(generatedDir, source);
    assert n == prefix + NEON_MAP_EXTENSION;
    assert d == prefix + DESATURATION_EXTENSION;
    assert n[|prefix| + 1] == 'n';
    assert d[|prefix| + 1] == 'd';
  }

  /** The neon-map generation parameters; their content plays no part in path derivation. */
  datatype NeonMapInput = NeonMapInput(settings: seq<int>)

  datatype SourceImage = SourceImage(path: Path, isOfficial: bool)

  datatype ImageExtras = ImageExtras(neonMap: Option<NeonMapInput>, customNeonMapPath: Option<Path>)

  /**
   * An image definition. `should_generate_desaturation()` is declared in a header that is not
   * part of this model; its answer is the field `generateDesaturation`.
   */
  datatype ImageLoadablesDef = ImageLoadablesDef(
    sourceImage: SourceImage,
    extras: ImageExtras,
    generateDesaturation: bool)

  /** `image_loadables_def_view`: the definition plus its source path resolved once at construction. */
  datatype ImageLoadablesDefView = ImageLoadablesDefView(def: ImageLoadablesDef, resolvedSourceImagePath: Path)

  /** The view constructor: official images live under the official gfx directory, others under the project directory. */
  function MakeView(projectDir: Path, d: ImageLoadablesDef): (v: ImageLoadablesDefView)
    ensures v.def == d
    ensures d.sourceImage.isOfficial ==> v.resolvedSourceImagePath == Join(OFFICIAL_GFX_DIR, d.sourceImage.path)
    ensures !d.sourceImage.isOfficial ==> v.resolvedSourceImagePath == Join(projectDir, d.sourceImage.path)
  {
    ImageLoadablesDefView(d,
      if d.sourceImage.isOfficial then Join(OFFICIAL_GFX_DIR, d.sourceImage.path)
      else Join(projectDir, d.sourceImage.path))
  }

  /** `find_neon_map_path`: a custom path wins, else the derived path when a neon map is requested, else none. */
  function FindNeonMapPath(generatedDir: Path, v: ImageLoadablesDefView): (r: Option<Path>)
    ensures v.def.extras.customNeonMapPath.Some? ==> r == v.def.extras.customNeonMapPath
    ensures (v.def.extras.customNeonMapPath.None? && v.def.extras.neonMap.Some?) ==>
              r == Some(GetNeonMapPath(generatedDir, v.resolvedSourceImagePath))
    ensures r.None? <==> v.def.extras.customNeonMapPath.None? && v.def.extras.neonMap.None?
  {
    if v.def.extras.customNeonMapPath.Some? then v.def.extras.customNeonMapPath
    else if v.def.extras.neonMap.Some? then Some(GetNeonMapPath(generatedDir, v.resolvedSourceImagePath))
    else None
  }

  /** `find_desaturation_path`: present exactly when a desaturation is to be generated. */
  function FindDesaturationPath(generatedDir: Path, v: ImageLoadablesDefView): (r: Option<Path>)
    ensures r.Some? <==> v.def.generateDesaturation
    ensures r.Some? ==> r.value == GetDesaturationPath(generatedDir, v.resolvedSourceImagePath)
  {
    if v.def.generateDesaturation then Some(GetDesaturationPath(generatedDir, v.resolvedSourceImagePath))
    else None
  }

  /** One regeneration the view asks for: which generator, from which diffuse image, into which file. */
  datatype Regeneration =
    | RegenerateNeonMap(diffuse: Path, output: Path, input: NeonMapInput)
    | RegenerateDesaturation(diffuse: Path, output: Path)

  /**
   * `regenerate_all_needed`: the regenerations in the order the source performs them. `None`
   * is the failed `ensure` when both a neon map and a custom neon map path are given.
   * The file generators themselves are not part of this model.
   */
  function RegenerateAllNeeded(generatedDir: Path, v: ImageLoadablesDefView): (r: Option<seq<Regeneration>>)
    ensures r.None? <==> v.def.extras.neonMap.Some? && v.def.extras.customNeonMapPath.Some?
    ensures r.Some? ==> |r.value| == (if v.def.extras.neonMap.Some? then 1 else 0) + (if v.def.generateDesaturation then 1 else 0)
    ensures r.Some? && v.def.extras.neonMap.Some? ==>
              r.value[0] == RegenerateNeonMap(v.resolvedSourceImagePath,
                                              GetNeonMapPath(generatedDir, v.resolvedSourceImagePath),
                                              v.def.extras.neonMap.value)
    ensures r.Some? && v.def.generateDesaturation ==>
              r.value[|r.value| - 1] == RegenerateDesaturation(v.resolvedSourceImagePath,
                                                               GetDesaturationPath(generatedDir, v.resolvedSourceImagePath))
    ensures r.Some? ==> forall k | 0 <= k < |r.value| :: r.value[k].diffuse == v.resolvedSourceImagePath
  {
    var e := v.def.extras;
    if e.neonMap.Some? && e.customNeonMapPath.Some? then None
    else
      var neon := if e.neonMap.Some?
        then [RegenerateNeonMap(v.resolvedSourceImagePath, FindNeonMapPath(generatedDir, v).value, e.neonMap.value)]
        else [];
      var desaturation := if v.def.generateDesaturation
        then [RegenerateDesaturation(v.resolvedSourceImagePath, FindDesaturationPath(generatedDir, v).value)]
        else [];
      Some(neon + desaturation)
  }

  /** `delete_regenerated_files`: both derived paths are removed, whatever the definition asks for. */
  function DeleteRegeneratedFiles(generatedDir: Path, v: ImageLoadablesDefView): (removed: seq<Path>)
    ensures |removed| == 2 && removed[0] != removed[1]
    ensures removed[0] == GetNeonMapPath(generatedDir, v.resolvedSourceImagePath)
    ensures removed[1] == GetDesaturationPath(generatedDir, v.resolvedSourceImagePath)
  {
    DerivedPathsDiffer(generatedDir, v.resolvedSourceImagePath);
    [GetNeonMapPath(generatedDir, v.resolvedSourceImagePath), GetDesaturationPath(generatedDir, v.resolvedSourceImagePath)]
  }
}
