/**
 * The resource cache: a process-wide map from file path to the loaded asset, filled on
 * demand. Whether a file exists is the set `disk` of existing paths, given to each call;
 * the raylib loaders and unloaders are recorded as `Native` calls in `natives`, and the
 * asset a loader returns for a path is the value `Asset(type, path)`.
 */
module Resources {

  /** A path, as text with `/` as the separator; keys compare as raw strings, without normalisation. */
  type Path = string

  /** `ResourceType`: what a cache entry holds; a fresh `Resource` holds nothing. */
  datatype ResourceType = None | Texture | Sound | Model | Font

  /**
   * The union of `Resource`: nothing loaded (`Empty`, also what a default-initialised
   * `Resource` holds), or the asset the loader for `type` returned for `path`.
   */
  datatype Payload = Empty | Asset(kind: ResourceType, path: Path)

  /** `Resource`: the tag and the union. */
  datatype Resource = Resource(kind: ResourceType, payload: Payload)

  /** A call into raylib: `Load*` returning an asset, or `Unload*` releasing one. */
  datatype Native = Opened(asset: Payload) | Released(asset: Payload)

  /** `Resource resource;`: type `None`, and the static dummy `ResourceGet` hands out. */
  const Fresh: Resource := Resource(None, Empty)

  /** The extension lists `ResourceLoad` tries, in the order it tries them. */
  const TextureExtensions: seq<string> := [".png", ".bmp", ".tga", ".jpg", ".gif", ".qoi", ".psd", ".dds", ".hdr", ".ktx", ".astc", ".pkm", ".pvr"]
  const SoundExtensions: seq<string> := [".wav", ".ogg", ".mp3", ".flac", ".xm", ".mod", ".qoa"]
  const ModelExtensions: seq<string> := [".obj", ".iqm", ".gltf", ".vox", ".m3d", ".glb"]
  const FontExtensions: seq<string> := [".ttf", ".otf"]

  // ----- Paths -----

  /** `path::filename()`: the text after the last separator (empty after a trailing `/`). */
  function Filename(p: Path): (f: string)
    ensures |f| <= |p| && f == p[|p| - |f|..] && '/' !in f
    ensures |f| < |p| ==> p[|p| - |f| - 1] == '/'
  {
    if p == [] || p[|p| - 1] == '/' then []
    else Filename(p[..|p| - 1]) + [p[|p| - 1]]
  }

  /** The position of the last `.` of a text that has one. */
  function LastDot(f: string): (i: nat)
    requires '.' in f
    ensures i < |f| && f[i] == '.' && '.' !in f[i + 1..]
  {
    if f[|f| - 1] == '.' then |f| - 1
    else
      assert f == f[..|f| - 1] + [f[|f| - 1]];
      var i := LastDot(f[..|f| - 1]);
      assert f[i + 1..] == f[..|f| - 1][i + 1..] + [f[|f| - 1]];
      i
  }

  /**
   * `path::extension()`: the filename from its last `.` on, or empty when the filename has
   * no `.`, is `.` or `..`, or its only `.` is its first character.
   */
  function Extension(p: Path): (e: string)
    ensures e == [] || (e[0] == '.' && '.' !in e[1..])
  {
    var f := Filename(p);
    if f == "." || f == ".." || '.' !in f || LastDot(f) == 0 then []
    else
      var i := LastDot(f);
      assert f[i..][1..] == f[i + 1..];
      f[i..]
  }

  /** A nonempty extension is a proper suffix of the filename. */
  lemma ExtensionEndsFilename(p: Path)
    ensures Extension(p) != [] ==>
      |Extension(p)| < |Filename(p)| && Extension(p) == Filename(p)[|Filename(p)| - |Extension(p)|..]
  {
  }

  /** The extension of a plain file in a directory. */
  lemma ExtensionOfFile()
    ensures Extension("d/a.png") == ".png"
  {
    assert Filename("d/a.png") == "a.png";
    assert LastDot("a.png") == 1;
  }

  /** Only the last of several dots starts the extension. */
  lemma ExtensionAfterLastDot()
    ensures Extension("a.b.c") == ".c"
  {
    assert Filename("a.b.c") == "a.b.c";
    assert LastDot("a.b.c") == 3;
  }

  /** A hidden file's leading dot does not start an extension. */
  lemma ExtensionOfHiddenFile()
    ensures Extension("d/.obj") == ""
  {
    assert Filename("d/.obj") == ".obj";
    assert LastDot(".obj") == 0;
  }

  /** A dot in a directory name or before a trailing separator is not an extension. */
  lemma ExtensionOfDirectory()
    ensures Extension("a.ttf/") == "" && Extension("a.b/c") == ""
  {
    assert Filename("a.b/c") == "c";
  }

  // ----- Classification -----

  /** `FileIsSupported`: the extension of the path is one of `extensions`, matched exactly. */
  predicate FileIsSupported(path: Path, extensions: seq<string>)
  {
    exists i :: 0 <= i < |extensions| && extensions[i] == Extension(path)
  }

  /** The type `ResourceLoad` gives a path: the first of the four lists that holds its extension. */
  function Classify(path: Path): ResourceType
  {
    if FileIsSupported(path, TextureExtensions) then Texture
    else if FileIsSupported(path, SoundExtensions) then Sound
    else if FileIsSupported(path, ModelExtensions) then Model
    else if FileIsSupported(path, FontExtensions) then Font
    else None
  }

  /** The list whose extensions give `type`. */
  function ExtensionsOf(kind: ResourceType): seq<string>
  {
    match kind
    case None => []
    case Texture => TextureExtensions
    case Sound => SoundExtensions
    case Model => ModelExtensions
    case Font => FontExtensions
  }

  /** No texture extension is on another list. */
  lemma TexturesDisjoint()
    ensures forall t :: t in TextureExtensions ==> t !in SoundExtensions + ModelExtensions + FontExtensions
  {
  }

  /** The sound, model and font lists share no extension. */
  lemma OthersDisjoint()
    ensures forall t :: t in SoundExtensions ==> t !in ModelExtensions + FontExtensions
    ensures forall t :: t in ModelExtensions ==> t !in FontExtensions
  {
  }

  /**
   * The four lists share no extension, so the order in which they are tried does not matter:
   * a path is of a type exactly when its extension is on that type's list, and of type `None`
   * exactly when it is on none of them.
   */
  lemma ClassifyByExtension(path: Path, kind: ResourceType)
    ensures kind != None ==> (Classify(path) == kind <==> Extension(path) in ExtensionsOf(kind))
    ensures Classify(path) == None <==>
      Extension(path) !in TextureExtensions + SoundExtensions + ModelExtensions + FontExtensions
  {
    var e := Extension(path);
    assert e in TextureExtensions <==> FileIsSupported(path, TextureExtensions);
    assert e in SoundExtensions <==> FileIsSupported(path, SoundExtensions);
    assert e in ModelExtensions <==> FileIsSupported(path, ModelExtensions);
    assert e in FontExtensions <==> FileIsSupported(path, FontExtensions);
    TexturesDisjoint();
    OthersDisjoint();
  }

  /** The entry `ResourceLoad` builds for an existing path. */
  function Loaded(path: Path): (r: Resource)
    ensures r.kind == Classify(path)
  {
    var kind := Classify(path);
    if kind == None then Fresh else Resource(kind, Asset(kind, path))
  }

  /** The union holds the asset of its tag, loaded from `path`; nothing when the tag is `None`. */
  predicate Tagged(r: Resource, path: Path)
  {
    if r.kind == None then r.payload == Empty else r.payload == Asset(r.kind, path)
  }

  /** The native loads `ResourceLoad` makes for an existing path: one, unless the type is `None`. */
  function Opens(path: Path): seq<Native>
  {
    if Classify(path) == None then [] else [Opened(Loaded(path).payload)]
  }

  /** The native unload `ResourceUnload` makes for an entry: the one of its tag, if any. */
  function Releases(r: Resource): seq<Native>
  {
    if r.kind == None then [] else [Released(r.payload)]
  }

  /** An entry built for a path is tagged, and unloading it releases what loading it opened. */
  lemma LoadedIsTagged(path: Path)
    ensures Tagged(Loaded(path), path)
    ensures |Opens(path)| == |Releases(Loaded(path))| <= 1
    ensures forall i :: 0 <= i < |Opens(path)| ==> Releases(Loaded(path))[i].asset == Opens(path)[i].asset
  {
  }

  // ----- The cache as values -----

  /** What `ResourceGet` returns: the cached entry, the entry a load makes, or the dummy. */
  function Lookup(cache: map<Path, Resource>, path: Path, disk: set<Path>): (r: Resource)
  {
    if path in cache then cache[path] else if path in disk then Loaded(path) else Fresh
  }

  /** The cache after `ResourceGet`: a miss on an existing path caches the loaded entry. */
  function AfterGet(cache: map<Path, Resource>, path: Path, disk: set<Path>): map<Path, Resource>
  {
    if path !in cache && path in disk then cache[path := Loaded(path)] else cache
  }

  /**
   * A second `ResourceGet` of the same path returns the same entry and changes nothing more;
   * once it returns an entry of a type other than `None`, the path stays cached.
   */
  lemma GetIdempotent(cache: map<Path, Resource>, path: Path, disk: set<Path>)
    ensures AfterGet(AfterGet(cache, path, disk), path, disk) == AfterGet(cache, path, disk)
    ensures Lookup(AfterGet(cache, path, disk), path, disk) == Lookup(cache, path, disk)
    ensures Lookup(cache, path, disk).kind != None ==> path in AfterGet(cache, path, disk)
    ensures forall q :: q != path ==> (q in AfterGet(cache, path, disk) <==> q in cache)
  {
  }

  /** Unloading a path that was not cached before it was loaded gives back the cache before. */
  lemma UnloadUndoesLoad(cache: map<Path, Resource>, path: Path, disk: set<Path>)
    requires path !in cache && path in disk
    ensures AfterGet(cache, path, disk) - {path} == cache
  {
    assert AfterGet(cache, path, disk) == cache[path := Loaded(path)];
  }

  // ----- The cache in place -----

  /** The global `resources` map and the native calls made so far. */
  class Cache {
    var resources: map<Path, Resource>
    var natives: seq<Native>

    /** Every entry is tagged with what it holds, loaded from its own path. */
    ghost predicate Valid()
      reads this`resources
    {
      forall p :: p in resources ==> Tagged(resources[p], p)
    }

    /** The empty cache at program start. */
    constructor ()
      ensures Valid() && resources == map[] && natives == []
    {
      resources, natives := map[], [];
    }

    /**
     * `ResourceLoad`: false, and nothing changes, when the path does not exist. Otherwise
     * the asset is loaded by the loader of the first list holding the extension (none when no
     * list holds it), the entry is added unless the path is already cached (`emplace` keeps
     * the older entry, and the asset just loaded is dropped), and the result is true.
     */
    method ResourceLoad(path: Path, disk: set<Path>) returns (ok: bool)
      requires Valid()
      modifies this`resources, this`natives
      ensures Valid() && (ok <==> path in disk)
      ensures !ok ==> resources == old(resources) && natives == old(natives)
      ensures ok ==> natives == old(natives) + Opens(path)
      ensures ok ==> resources == (if path in old(resources) then old(resources) else old(resources)[path := Loaded(path)])
    {
      if path !in disk {
        return false;
      }
      var kind := Classify(path);
      var resource := Fresh;
      if kind != None {
        resource := Resource(kind, Asset(kind, path));
        natives := natives + [Opened(resource.payload)];
      }
      if path !in resources {
        LoadedIsTagged(path);
        resources := resources[path := resource];
      }
      return true;
    }

    /**
     * `ResourceUnload`: when the path is cached, the unloader of its tag releases its asset
     * (nothing for `None`), the entry is erased and the result is true; otherwise false, and
     * nothing changes.
     */
    method ResourceUnload(path: Path) returns (ok: bool)
      requires Valid()
      modifies this`resources, this`natives
      ensures Valid() && (ok <==> path in old(resources))
      ensures ok ==> resources == old(resources) - {path} && natives == old(natives) + Releases(old(resources)[path])
      ensures !ok ==> resources == old(resources) && natives == old(natives)
    {
      if path !in resources {
        return false;
      }
      var res := resources[path];
      match res.kind {
        case Texture => natives := natives + [Released(res.payload)];
        case Sound => natives := natives + [Released(res.payload)];
        case Model => natives := natives + [Released(res.payload)];
        case Font => natives := natives + [Released(res.payload)];
        case None =>
      }
      resources := resources - {path};
      return true;
    }

    /**
     * `ResourceGet`: the cached entry, loading the path on a miss; when the load fails, the
     * static dummy, of type `None`, and the cache is unchanged.
     */
    method ResourceGet(path: Path, disk: set<Path>) returns (r: Resource)
      requires Valid()
      modifies this`resources, this`natives
      ensures Valid() && Tagged(r, path)
      ensures r == Lookup(old(resources), path, disk) && resources == AfterGet(old(resources), path, disk)
      ensures natives == old(natives) + (if path !in old(resources) && path in disk then Opens(path) else [])
    {
      if path !in resources {
        var ok := ResourceLoad(path, disk);
        if !ok {
          return Fresh;
        }
      }
      return resources[path];
    }

    /** `GetTexture`: the union of the entry `ResourceGet` returns, read as a texture. */
    method GetTexture(path: Path, disk: set<Path>) returns (t: Payload)
      requires Valid()
      modifies this`resources, this`natives
      ensures Valid() && t == Lookup(old(resources), path, disk).payload
      ensures Lookup(old(resources), path, disk).kind == Texture ==> t == Asset(Texture, path)
    {
      var r := ResourceGet(path, disk);
      t := r.payload;
    }

    /** `GetSound`: the union of the entry `ResourceGet` returns, read as a sound. */
    method GetSound(path: Path, disk: set<Path>) returns (t: Payload)
      requires Valid()
      modifies this`resources, this`natives
      ensures Valid() && t == Lookup(old(resources), path, disk).payload
      ensures Lookup(old(resources), path, disk).kind == Sound ==> t == Asset(Sound, path)
    {
      var r := ResourceGet(path, disk);
      t := r.payload;
    }

    /** `GetModel`: the union of the entry `ResourceGet` returns, read as a model. */
    method GetModel(path: Path, disk: set<Path>) returns (t: Payload)
      requires Valid()
      modifies this`resources, this`natives
      ensures Valid() && t == Lookup(old(resources), path, disk).payload
      ensures Lookup(old(resources), path, disk).kind == Model ==> t == Asset(Model, path)
    {
      var r := ResourceGet(path, disk);
      t := r.payload;
    }

    /** `GetFont`: the union of the entry `ResourceGet` returns, read as a font. */
    method GetFont(path: Path, disk: set<Path>) returns (t: Payload)
      requires Valid()
      modifies this`resources, this`natives
      ensures Valid() && t == Lookup(old(resources), path, disk).payload
      ensures Lookup(old(resources), path, disk).kind == Font ==> t == Asset(Font, path)
    {
      var r := ResourceGet(path, disk);
      t := r.payload;
    }
  }
}
