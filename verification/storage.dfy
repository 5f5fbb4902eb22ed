/** Where uploaded logos and generated media are stored, and the public URL of
    each stored file. Nothing is transferred: only paths and URLs are built.
    The random UUID the store would draw is passed in. */
module Storage {
  import opened Wrappers
  import opened Text

  const Bucket := "brand-assets"

  /** Every public URL starts with this root, followed by the file's path. */
  const PublicRoot := "https://storage.example.com/" + Bucket + "/"

  /** The public URL of a stored path (`get_file_url`). */
  function PublicUrl(path: string): (url: string)
    ensures PublicRoot <= url
    ensures PathOf(url) == Some(path)
  {
    var url := PublicRoot + path;
    assert url[..|PublicRoot|] == PublicRoot;
    assert url[|PublicRoot|..] == path;
    url
  }

  /** The path a public URL points at, if it is one of ours. */
  function PathOf(url: string): Option<string> {
    if PublicRoot <= url then Some(url[|PublicRoot|..]) else None
  }

  /** Distinct paths have distinct URLs. */
  lemma PublicUrlInjective(p: string, q: string)
    requires PublicUrl(p) == PublicUrl(q)
    ensures p == q
  {
    assert PathOf(PublicUrl(p)) == Some(p);
  }

  /** The extension of an uploaded file name: its last `.`-piece, lower-cased;
      a name without a dot is its own extension. */
  function Extension(filename: string): (ext: string)
    ensures '.' !in ext
    ensures |ext| <= |filename|
    ensures '.' !in filename ==> ext == Lower(filename)
    ensures '.' in filename ==> EndsWith(Lower(filename), "." + ext)
  {
    var last := LastSegment(filename, '.');
    LowerKeeps(last, '.');
    if '.' in filename then
      LowerSuffix(filename, last);
      Lower(last)
    else
      Lower(last)
  }

  /** Lower-casing commutes with taking a `.`-separated suffix. */
  lemma LowerSuffix(s: string, last: string)
    requires |last| < |s| && s[|s| - |last|..] == last && s[|s| - |last| - 1] == '.'
    ensures EndsWith(Lower(s), "." + Lower(last))
  {
    var n := |s|;
    var ls := Lower(s);
    var t := "." + Lower(last);
    forall k | 0 <= k < |t| ensures ls[n - |t| + k] == t[k] {
      if k > 0 { assert s[n - |last| + k - 1] == last[k - 1]; }
    }
    assert ls[n - |t|..] == t;
  }

  /** The stored path of a logo: `logos/<brand>/<uuid>.<ext>`. */
  function LogoPath(brandId: string, uuid: string, filename: string): string {
    "logos/" + brandId + "/" + uuid + "." + Extension(filename)
  }

  /** Uploads a logo and returns its public URL (`upload_logo`). A file without a
      name makes the extension lookup raise. */
  function UploadLogo(filename: Option<string>, brandId: string, uuid: string): (r: Result<string, string>)
    ensures r.Failure? <==> filename.None?
    ensures r.Success? ==> PublicRoot <= r.value
    ensures r.Success? ==> EndsWith(r.value, "." + Extension(filename.value))
    ensures r.Success? ==> PathOf(r.value) == Some(LogoPath(brandId, uuid, filename.value))
  {
    if filename.None? then Failure("'NoneType' object has no attribute 'split'")
    else
      var path := LogoPath(brandId, uuid, filename.value);
      var url := PublicUrl(path);
      var tail := "." + Extension(filename.value);
      assert url == PublicRoot + "logos/" + brandId + "/" + uuid + tail;
      assert url[|url| - |tail|..] == tail;
      Success(url)
  }

  /** A logo path reads back into its three parts: the `logos` folder, the brand, and a file
      named by the UUID whose extension is the one derived from the upload's name. */
  lemma {:induction false} LogoPathParts(brandId: string, uuid: string, filename: string)
    requires '/' !in brandId && '/' !in uuid && '/' !in filename
    ensures var parts := Split(LogoPath(brandId, uuid, filename), '/');
      && parts == ["logos", brandId, uuid + "." + Extension(filename)]
      && LastSegment(parts[2], '.') == Extension(filename)
  {
    var ext := Extension(filename);
    var name := uuid + "." + ext;
    LowerKeeps(LastSegment(filename, '.'), '/');
    assert '/' !in name;
    LogoPathIsJoin(brandId, uuid, filename);
    JoinSplit(["logos", brandId, name], '/');
    LastSegmentAfter(uuid, ext, '.');
  }

  /** A logo path is its three parts joined by `/`. */
  lemma LogoPathIsJoin(brandId: string, uuid: string, filename: string)
    ensures LogoPath(brandId, uuid, filename) == Join(["logos", brandId, uuid + "." + Extension(filename)], '/')
  {
    var name := uuid + "." + Extension(filename);
    var parts := ["logos", brandId, name];
    assert Join(parts, '/') == "logos" + ['/'] + (brandId + ['/'] + name) by {
      assert Join(parts[2..], '/') == name;
      assert parts[1..][1..] == parts[2..];
      assert Join(parts[1..], '/') == brandId + ['/'] + name;
    }
  }

  /** The stored file name of generated media: the caller's name, or `<uuid>.<ext>` when none or an empty one is given. */
  function MediaName(filename: Option<string>, uuid: string, defaultExt: string): string {
    if filename.None? || filename.value == "" then uuid + "." + defaultExt else filename.value
  }

  /** The two kinds of generated media, each stored in its own folder with its own default extension. */
  datatype MediaKind = GeneratedImage | GeneratedVideo

  function Folder(kind: MediaKind): string {
    match kind
    case GeneratedImage => "images"
    case GeneratedVideo => "videos"
  }

  function DefaultExtension(kind: MediaKind): string {
    match kind
    case GeneratedImage => "png"
    case GeneratedVideo => "mp4"
  }

  /** Where generated media named `name` is stored for a brand. */
  function MediaPath(kind: MediaKind, brandId: string, name: string): string {
    "generated/" + brandId + ("/" + Folder(kind) + "/" + name)
  }

  /** Uploads generated media and returns its public URL (`upload_generated_image` and
      `upload_generated_video`): the file lies in the brand's folder for its kind, under the
      caller's name, or under `<uuid>.<default extension>` when the name is absent or empty. */
  function UploadGenerated(kind: MediaKind, content: seq<bv8>, brandId: string, filename: Option<string>, uuid: string): (url: string)
    ensures PathOf(url) == Some(MediaPath(kind, brandId, MediaName(filename, uuid, DefaultExtension(kind))))
    ensures filename.Some? && filename.value != "" ==> EndsWith(url, "/" + Folder(kind) + "/" + filename.value)
    ensures filename.None? || filename.value == "" ==>
      EndsWith(url, "/" + Folder(kind) + "/" + (uuid + "." + DefaultExtension(kind)))
  {
    var name := MediaName(filename, uuid, DefaultExtension(kind));
    var url := PublicUrl(MediaPath(kind, brandId, name));
    EndsWithNested(PublicRoot, "generated/" + brandId, "/" + Folder(kind) + "/" + name);
    url
  }

  /** A brand's generated image and generated video never share a URL, whatever their names. */
  lemma ImagesAndVideosApart(brandId: string, f: Option<string>, g: Option<string>, u: string, v: string, a: seq<bv8>, b: seq<bv8>)
    ensures UploadGenerated(GeneratedImage, a, brandId, f, u) != UploadGenerated(GeneratedVideo, b, brandId, g, v)
  {
    var i := MediaPath(GeneratedImage, brandId, MediaName(f, u, DefaultExtension(GeneratedImage)));
    var w := MediaPath(GeneratedVideo, brandId, MediaName(g, v, DefaultExtension(GeneratedVideo)));
    var k := |"generated/" + brandId + "/"|;
    assert i[k] == Folder(GeneratedImage)[0] && w[k] == Folder(GeneratedVideo)[0];
    assert PathOf(UploadGenerated(GeneratedImage, a, brandId, f, u)) == Some(i);
    assert PathOf(UploadGenerated(GeneratedVideo, b, brandId, g, v)) == Some(w);
    assert i[k] == 'i' && w[k] == 'v';
  }

  /** Deletion is not performed; the store always reports success. */
  function DeleteFile(path: string): (ok: bool)
    ensures ok
  {
    true
  }
}
