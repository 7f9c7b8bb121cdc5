/** The upload-path helper of `App_Authentication/utils.py`. */
module Uploads {
  import opened Text

  const UploadDir: string := "profile_picture/"
  const DefaultExtension: string := "webp"

  /** `filename.split('.')[-1]`, with 'webp' for an empty result. */
  function Extension(filename: string): (ext: string)
    ensures ext != [] && '.' !in ext
    ensures AfterLast(filename, '.') != [] ==> ext == AfterLast(filename, '.')
    ensures AfterLast(filename, '.') == [] ==> ext == DefaultExtension
  {
    var last := AfterLast(filename, '.');
    if last == [] then DefaultExtension else last
  }

  /** `rename_profile_picture(instance, filename)`: the upload directory, the
      random identifier, a '.', and the extension; the instance plays no part. */
  function RenameProfilePicture(filename: string, uuid: string): (path: string)
    ensures UploadDir <= path && |path| > |UploadDir| + |uuid|
    ensures AfterLast(path, '.') == Extension(filename)
    ensures path[|UploadDir|..|UploadDir| + |uuid|] == uuid
    ensures |path| == |UploadDir| + |uuid| + 1 + |Extension(filename)|
    ensures path[|UploadDir| + |uuid|] == '.'
  {
    var ext := Extension(filename);
    var path := UploadDir + uuid + "." + ext;
    AfterLastOfSuffix(UploadDir + uuid, '.', ext);
    path
  }

  /** A name without a '.' is its own extension, and an empty one gets the default. */
  lemma ExtensionWithoutDot(filename: string)
    requires '.' !in filename
    ensures filename != [] ==> Extension(filename) == filename
    ensures filename == [] ==> Extension(filename) == DefaultExtension
  {
  }

  /** A name ending in '.' gets the default extension. */
  lemma ExtensionOfTrailingDot(prefix: string)
    ensures Extension(prefix + ".") == DefaultExtension
  {
    assert AfterLast(prefix + ".", '.') == [];
  }

  /** Only the text after the last '.' counts (`archive.tar.gz` gives `gz`). */
  lemma ExtensionOfDottedName(prefix: string, ext: string)
    requires '.' !in ext && ext != []
    ensures Extension(prefix + "." + ext) == ext
  {
    AfterLastOfSuffix(prefix, '.', ext);
  }
}
