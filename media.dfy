/**
 * What the upload pages share: the browser `File` values they receive, the
 * size cap, the `name.substring(name.lastIndexOf("."))` extension rule, and
 * how a run of the ffmpeg engine ends.
 */
module Media {
  import opened JsText

  /** A `File`: its name, its MIME type (`File.type`) and its size in bytes. Its bytes are not modelled. */
  datatype File = File(name: string, mimeType: string, size: nat)

  /** 500 MiB, the size cap shared by the upload pages. */
  const MaxUploadBytes: nat := 500 * 1024 * 1024

  /**
   * `name.substring(name.lastIndexOf("."))`: from the last point on. Without
   * a point `lastIndexOf` is -1, which `substring` reads as 0, so the suffix
   * is the whole name.
   */
  function DotSuffix(name: string): (ext: string)
    ensures ext == [] <==> name == []
    ensures '.' in name ==> |ext| <= |name| && ext[0] == '.' && '.' !in ext[1..] && name == name[..|name| - |ext|] + ext
    ensures '.' !in name ==> ext == name
  {
    var k := LastIndexOf(name, '.');
    var e := SubstringFrom(name, k);
    assert '.' in name ==> e == name[k..] && name == name[..k] + e;
    assert '.' in name ==> forall i :: 0 <= i < |e| - 1 ==> e[1..][i] == name[k + 1 + i];
    e
  }

  /** A value a page's `catch` block receives: whether it is an `Error`, and then its `name` and `message`. */
  datatype Thrown = Thrown(isError: bool, name: string, message: string)

  /** `err instanceof Error ? err.message : fallback`, the error text a page shows for a throw. */
  function Caught(t: Thrown, fallback: string): (m: string)
    ensures t.isError ==> m == t.message
    ensures !t.isError ==> m == fallback
  {
    if t.isError then t.message else fallback
  }

  /**
   * How one run of the engine ended: the blob URL it produced, a throw
   * before that, or a throw while deleting the engine's files after the URL
   * was already set.
   */
  datatype Run = Completed(url: string) | FailedEarly(thrown: Thrown) | FailedCleanup(url: string, thrown: Thrown)

}
