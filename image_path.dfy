/**
 * The upload path of a recipe image (`recipe_image_file_path` in
 * app/core/models.py). The original file name contributes only its
 * extension, the text after its last '.'; the base name is dropped and
 * replaced by a freshly generated UUID, which this model takes as the
 * parameter `id`.
 */
module ImagePath {
  import opened Wrappers
  import opened PyStr

  /** The directory every recipe image is stored under. */
  const UploadDir: string := "uploads/recipe/"

  /** `filename.split('.')[-1]`: the uploaded file's extension. */
  function Extension(filename: string): (ext: string)
    ensures '.' !in ext
  {
    var parts := Split(filename, '.');
    parts[|parts| - 1]
  }

  /**
   * The extension is exactly what follows the last '.' of the file name;
   * a name without any '.' is its own extension.
   */
  lemma ExtensionIsAfterLastDot(filename: string)
    ensures '.' !in filename ==> Extension(filename) == filename
    ensures '.' in filename ==>
      var k := LastIndex(filename, '.').value;
      Extension(filename) == filename[k + 1..]
  {
  }

  /** The base name before the final '.' has no influence on the extension. */
  lemma ExtensionOfDotted(base: string, ext: string)
    requires '.' !in ext
    ensures Extension(base + "." + ext) == ext
  {
    LastIndexAfterSeparator(base, '.', ext);
    assert (base + "." + ext)[|base| + 1..] == ext;
    ExtensionIsAfterLastDot(base + "." + ext);
  }

  /**
   * Python's `os.path.join(a, b)` on POSIX: an absolute `b` replaces `a`;
   * otherwise a '/' is inserted unless `a` is empty or already ends in one.
   */
  function PathJoin(a: string, b: string): string
  {
    if |b| > 0 && b[0] == '/' then b
    else if a == "" || a[|a| - 1] == '/' then a + b
    else a + "/" + b
  }

  /** The storage path of an image uploaded as `filename`, given the generated `id`. */
  function RecipeImageFilePath(id: string, filename: string): string
  {
    PathJoin(UploadDir, id + "." + Extension(filename))
  }

  /** With an id that is not an absolute path (as a UUID's text never is) the path has the documented shape. */
  lemma RecipeImageFilePathShape(id: string, filename: string)
    requires id == "" || id[0] != '/'
    ensures RecipeImageFilePath(id, filename) == UploadDir + id + "." + Extension(filename)
  {
    var name := id + "." + Extension(filename);
    assert name[0] == (if id == "" then '.' else id[0]);
  }

  /** The path depends on the file name only through its extension. */
  lemma RecipeImageFilePathIgnoresBaseName(id: string, base1: string, base2: string, ext: string)
    requires '.' !in ext
    ensures RecipeImageFilePath(id, base1 + "." + ext) == RecipeImageFilePath(id, base2 + "." + ext)
    ensures RecipeImageFilePath(id, base1 + "." + ext) == PathJoin(UploadDir, id + "." + ext)
  {
    ExtensionOfDotted(base1, ext);
    ExtensionOfDotted(base2, ext);
  }

  /**
   * Reads a stored path back into the generated id and the extension: an
   * absolute path is the file name itself, a relative one loses the upload
   * directory; the name is then cut at its last '.'.
   */
  function ParseImagePath(path: string): (parts: (string, string))
  {
    var name :=
      if |path| > 0 && path[0] == '/' then path
      else if |UploadDir| <= |path| then path[|UploadDir|..]
      else path;
    match LastIndex(name, '.')
    case None => (name, "")
    case Some(k) => (name[..k], name[k + 1..])
  }

  /** The generated id and the extension can be read back from the path alone. */
  lemma ParseRecipeImageFilePath(id: string, filename: string)
    ensures ParseImagePath(RecipeImageFilePath(id, filename)) == (id, Extension(filename))
  {
    var ext := Extension(filename);
    var name := id + "." + ext;
    var p := RecipeImageFilePath(id, filename);
    LastIndexAfterSeparator(id, '.', ext);
    assert name[..|id|] == id && name[|id| + 1..] == ext;
    if |name| > 0 && name[0] == '/' {
      assert p == name;
    } else {
      assert p == UploadDir + name;
      assert p[0] == 'u';
      assert p[|UploadDir|..] == name;
    }
  }

  /** Two uploads share a path only if they got the same id and have the same extension. */
  lemma RecipeImageFilePathUnique(id1: string, filename1: string, id2: string, filename2: string)
    requires RecipeImageFilePath(id1, filename1) == RecipeImageFilePath(id2, filename2)
    ensures id1 == id2 && Extension(filename1) == Extension(filename2)
  {
    ParseRecipeImageFilePath(id1, filename1);
    ParseRecipeImageFilePath(id2, filename2);
  }

  /** Different generated ids never give the same path, whatever files were uploaded. */
  lemma RecipeImageFilePathInjective(id1: string, filename1: string, id2: string, filename2: string)
    requires id1 != id2
    ensures RecipeImageFilePath(id1, filename1) != RecipeImageFilePath(id2, filename2)
  {
    ParseRecipeImageFilePath(id1, filename1);
    ParseRecipeImageFilePath(id2, filename2);
  }

  /** A file `base.ext` stored under a non-absolute id lands at `uploads/recipe/<id>.<ext>`. */
  lemma RecipeImageFilePathOfDotted(id: string, base: string, ext: string)
    requires id == "" || id[0] != '/'
    requires '.' !in ext
    ensures RecipeImageFilePath(id, base + "." + ext) == UploadDir + id + "." + ext
  {
    ExtensionOfDotted(base, ext);
    RecipeImageFilePathShape(id, base + "." + ext);
  }

  /** The case pinned down by the model tests: `myimage.jpg` under id `test-uuid`. */
  lemma RecipeImageFilePathExample(id: string, filename: string)
    requires id == "test-uuid" && filename == "myimage.jpg"
    ensures RecipeImageFilePath(id, filename) == "uploads/recipe/test-uuid.jpg"
  {
    assert filename == "myimage" + "." + "jpg";
    RecipeImageFilePathOfDotted(id, "myimage", "jpg");
  }
}
