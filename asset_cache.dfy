/** The typed asset caches of `game_file.hpp`: `asset_cache<T>()` keeps one
    map per asset type `T` from resolved path to the loaded object,
    `load_asset<T>` fills it from the JSON file cache and `save_asset<T>`
    refuses to write a file whose extension is not the one of `T`. The
    conversion between an object and its JSON (`to_jv`/`from_jv`) is outside
    the model: an object records the document it was built from. */
module AssetCaching {
  import opened Common
  import opened GameFiles
  import opened FileCaching

  /** The C++ type an asset object has (`typeid(T)`). */
  datatype TypeInfo = ModelCpu | TextureCpu | MeshCpu | MaterialCpu | OtherType

  /** `from_typeinfo`: the file type of each asset type; any other type is
      General. */
  function FromTypeInfo(t: TypeInfo): (r: FileType)
    ensures Saved(r)
    ensures r == General <==> t == OtherType
  {
    match t
    case ModelCpu => Model
    case TextureCpu => Texture
    case MeshCpu => Mesh
    case MaterialCpu => Material
    case OtherType => General
  }

  /** Distinct asset types have distinct file types. */
  lemma {:induction false} FromTypeInfoInjective(a: TypeInfo, b: TypeInfo)
    ensures FromTypeInfo(a) == FromTypeInfo(b) ==> a == b
  {
  }

  /** An asset object as far as the caches see it: the document it was read
      from (None for a default-constructed `T`), its `dependencies` and its
      `file_path`. */
  datatype AssetValue = AssetValue(source: Option<Document>, dependencies: seq<string>, filePath: string)

  /** `T{}`. */
  const DEFAULT: AssetValue := AssetValue(None, [], "")

  /** The extension check of `save_asset` and of `load_asset`: the path ends
      in the extension of the asset type. */
  predicate HasExtensionOf(kind: TypeInfo, path: string) {
    PathExtension(path) == Extension(FromTypeInfo(kind))
  }

  /** For the four asset types, a path passes the extension check exactly
      when the game classifies it as the asset's own file type. (Any other
      type maps to General, which unknown extensions also give.) */
  lemma {:induction false} ExtensionCheckMatchesType(kind: TypeInfo, path: string)
    requires kind != OtherType
    ensures HasExtensionOf(kind, path) <==> TypeOfExtension(PathExtension(path)) == FromTypeInfo(kind)
  {
    ExtensionRoundTrip(FromTypeInfo(kind));
    if TypeOfExtension(PathExtension(path)) == FromTypeInfo(kind) {
      PathExtensionShape(path);
      var e := PathExtension(path);
      if e != Extension(FromTypeInfo(kind)) {
        ExtensionsDistinct(e, FromTypeInfo(kind));
      }
    }
  }

  /** Only the extension of a type other than General names that type. */
  lemma {:induction false} ExtensionsDistinct(e: string, t: FileType)
    requires Saved(t) && t != General && e != Extension(t)
    ensures TypeOfExtension(e) != t
  {
  }

  /** `save_asset<T>`: with the wrong extension it reports false and writes
      nothing; otherwise it dumps the object, as `serialize` renders it, to
      the resolved path and reports true. The check reads the path as given,
      not the resolved one. */
  method SaveAsset(disk: Disk, kind: TypeInfo, asset: AssetValue, env: Env, serialize: AssetValue -> seq<byte>)
    returns (saved: bool)
    modifies disk
    ensures saved <==> HasExtensionOf(kind, asset.filePath)
    ensures saved ==> disk.files == old(disk.files)[ToResourcePath(asset.filePath, env) := serialize(asset)]
    ensures !saved ==> disk.files == old(disk.files)
  {
    var ext := PathExtension(asset.filePath);
    if ext != Extension(FromTypeInfo(kind)) {
      return false;
    }
    disk.files := disk.files[ToResourcePath(asset.filePath, env) := serialize(asset)];
    return true;
  }

  /** `asset_cache<T>()`: the objects of one asset type by resolved path. */
  class AssetCache {
    const kind: TypeInfo
    var entries: map<string, AssetValue>

    constructor (kind: TypeInfo)
      ensures this.kind == kind && entries == map[]
    {
      this.kind := kind;
      entries := map[];
    }

    /** Every cached object is either a default one, stored for a path that
        could not be loaded, or one that records the path it is cached under. */
    ghost predicate Valid() reads this {
      EntriesValid(entries)
    }

    /** `load_asset<T>`. A hit without `clearCache` returns the cached object
        and touches nothing else. Otherwise the entry is dropped and the file
        looked at, as `LoadMissing` describes. `assertExists` only chooses how
        a failure is logged. */
    method LoadAsset(files: FileCache, disk: Disk, env: Env, parse: seq<byte> -> Document,
                     filePath: string, assertExists: bool, clearCache: bool)
      returns (t: AssetValue)
      requires Valid() && files.Consistent(disk.files, parse, env)
      modifies this, files
      ensures Valid() && files.Consistent(disk.files, parse, env) && files.Grown()
      ensures var key := ToResourcePath(filePath, env);
        && key in entries && entries[key] == t
        && (!clearCache && key in old(entries) ==>
              t == old(entries[key]) && entries == old(entries)
              && files.parsedJsons == old(files.parsedJsons)
              && files.parsedAssets == old(files.parsedAssets))
        && (clearCache || key !in old(entries) ==>
              entries == old(entries)[key := t] && Missed(disk.files, parse, key, t))
    {
      var key := ToResourcePath(filePath, env);
      if clearCache && key in entries {
        entries := entries - {key};
      } else if key in entries {
        return entries[key];
      }
      ghost var kept := entries;
      assert kept == old(entries) - {key} by {
        if key !in old(entries) { RemoveAbsent(old(entries), key); }
      }
      t := LoadMissing(files, disk, env, parse, key);
      UpdateAfterRemove(old(entries), key, t);
    }

    /** The miss path of `load_asset<T>` for the resolved path `key`: a
        missing file or a wrong extension caches and returns a default object
        (later calls without `clearCache` return it again, with no retry); a
        good file is loaded through the JSON file cache, its dependencies are
        loaded, and the object built from it is cached under, and records,
        the resolved path. */
    method LoadMissing(files: FileCache, disk: Disk, env: Env, parse: seq<byte> -> Document, key: string)
      returns (t: AssetValue)
      requires key !in entries
      requires Valid() && files.Consistent(disk.files, parse, env)
      modifies this, files
      ensures Valid() && files.Consistent(disk.files, parse, env) && files.Grown()
      ensures entries == old(entries)[key := t] && Missed(disk.files, parse, key, t)
      ensures t == DEFAULT ==> files.parsedJsons == old(files.parsedJsons) && files.parsedAssets == old(files.parsedAssets)
    {
      var onDisk := key in disk.files;
      var correctExtension := PathExtension(key) == Extension(FromTypeInfo(kind));
      if !(onDisk && correctExtension) {
        InsertValid(entries, key, DEFAULT);
        entries := entries[key := DEFAULT];
        return DEFAULT;
      }
      t := ReadAsset(files, disk, env, parse, key);
      InsertValid(entries, key, t);
      entries := entries[key := t];
    }

    /** What a miss leaves for `key`: the default object when the file is
        absent or has the wrong extension, else the object read from the
        file's document, with that document's dependencies and the resolved
        path. */
    ghost predicate Missed(files: map<string, seq<byte>>, parse: seq<byte> -> Document, key: string, t: AssetValue)
      reads this
    {
      if key in files && HasExtensionOf(kind, key) then
        var j := ParseFile(files, parse, Normalize(key));
        t == AssetValue(Some(j), if j.dependencies.Some? then j.dependencies.value else [], key)
      else
        t == DEFAULT
    }
  }

  /** The loading half of `load_asset<T>`'s miss path: the document of the
      file at `key`, through the JSON file cache, then its dependencies; the
      object built from it records those dependencies and `key`. */
  method ReadAsset(files: FileCache, disk: Disk, env: Env, parse: seq<byte> -> Document, key: string)
    returns (t: AssetValue)
    requires files.Consistent(disk.files, parse, env)
    modifies files
    ensures files.Consistent(disk.files, parse, env) && files.Grown()
    ensures var j := ParseFile(disk.files, parse, Normalize(key));
      t == AssetValue(Some(j), if j.dependencies.Some? then j.dependencies.value else [], key)
  {
    var j := files.LoadJson(disk, env, parse, key);
    ghost var jsons, assets := files.parsedJsons, files.parsedAssets;
    var dependencies := files.LoadDependencies(disk, env, parse, j, |files.Unparsed(disk.files)| + 1);
    ExtendsTrans(files.parsedJsons, jsons, old(files.parsedJsons));
    ExtendsTrans(files.parsedAssets, assets, old(files.parsedAssets));
    t := AssetValue(Some(j), dependencies, key);
  }

  ghost predicate EntriesValid(entries: map<string, AssetValue>) {
    forall k :: k in entries ==> entries[k] == DEFAULT || entries[k].filePath == k
  }

  lemma {:induction false} InsertValid(entries: map<string, AssetValue>, key: string, t: AssetValue)
    requires EntriesValid(entries) && (t == DEFAULT || t.filePath == key)
    ensures EntriesValid(entries[key := t])
  {
  }

  lemma {:induction false} RemoveAbsent<K, V>(m: map<K, V>, k: K)
    requires k !in m
    ensures m - {k} == m
  {
  }

  lemma {:induction false} UpdateAfterRemove<K, V>(m: map<K, V>, k: K, v: V)
    ensures (m - {k})[k := v] == m[k := v]
  {
  }
}
