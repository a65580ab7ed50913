/** `FileCache` (`file_cache.cpp`): memoising loaders for JSON documents and
    binary asset files, keyed by the path with every `\` turned into `/`.
    Loading a JSON document also loads, recursively, every dependency it
    lists. Parsing JSON text is outside the model: `parse` stands for it,
    and the document is reduced to the one key the cache reads,
    "dependencies". */
module FileCaching {
  import opened Common
  import opened GameFiles
  import opened AssetLoader

  /** A parsed JSON document: its "dependencies" list when it has that key,
      and the rest of it, which the cache does not look into. */
  datatype Document = Document(dependencies: Option<seq<string>>, rest: string)

  /** The document `parse_file` gives for a path that holds no file. */
  const EMPTY_DOCUMENT: Document := Document(None, "")

  /** `std::replace(path, '\\', '/')`. */
  function Normalize(path: string): (r: string)
    ensures |r| == |path|
    ensures forall i :: 0 <= i < |r| ==> r[i] == (if path[i] == '\\' then '/' else path[i])
  {
    seq(|path|, i requires 0 <= i < |path| => if path[i] == '\\' then '/' else path[i])
  }

  /** A normalised path has no `\`, so normalising it again changes nothing. */
  lemma {:induction false} NormalizeIdempotent(path: string)
    ensures forall i :: 0 <= i < |Normalize(path)| ==> Normalize(path)[i] != '\\'
    ensures Normalize(Normalize(path)) == Normalize(path)
  {
  }

  /** `parse_file(path)`. */
  function ParseFile(files: map<string, seq<byte>>, parse: seq<byte> -> Document, path: string): Document {
    if path in files then parse(files[path]) else EMPTY_DOCUMENT
  }

  class FileCache {
    var parsedJsons: map<string, Document>
    var parsedAssets: map<string, AssetFile>

    constructor ()
      ensures parsedJsons == map[] && parsedAssets == map[]
    {
      parsedJsons := map[];
      parsedAssets := map[];
    }

    /** Every cached entry is what loading its key afresh would give. */
    ghost predicate Consistent(files: map<string, seq<byte>>, parse: seq<byte> -> Document, env: Env)
      reads this
    {
      JsonsMatch(parsedJsons, files, parse) && AssetsMatch(parsedAssets, files, env)
    }

    /** The files on disk whose JSON has not been parsed yet: the measure
        that makes the recursion through dependencies finish. */
    ghost function Unparsed(files: map<string, seq<byte>>): set<string>
      reads this
    {
      files.Keys - parsedJsons.Keys
    }

    /** Entries are only ever added: every cached entry survives unchanged. */
    twostate predicate Grown()
      reads this
    {
      Extends(parsedJsons, old(parsedJsons)) && Extends(parsedAssets, old(parsedAssets))
    }

    /** `load_json`: a hit returns the cached document and changes nothing; a
        miss parses the file, stores the document before loading its
        dependencies (so a dependency cycle ends on a hit), and returns it.
        Either way the result is the file's document. */
    method LoadJson(disk: Disk, env: Env, parse: seq<byte> -> Document, filePathInput: string)
      returns (j: Document)
      requires Consistent(disk.files, parse, env)
      modifies this
      ensures Consistent(disk.files, parse, env) && Grown()
      ensures j == ParseFile(disk.files, parse, Normalize(filePathInput))
      ensures Normalize(filePathInput) in parsedJsons
      ensures Normalize(filePathInput) in old(parsedJsons) ==>
        parsedJsons == old(parsedJsons) && parsedAssets == old(parsedAssets)
      decreases |Unparsed(disk.files)|, 1
    {
      var filePath := Normalize(filePathInput);
      if filePath in parsedJsons {
        return parsedJsons[filePath];
      }
      ghost var bound := |Unparsed(disk.files)|;
      ghost var known := parsedJsons.Keys;
      parsedJsons := parsedJsons[filePath := ParseFile(disk.files, parse, filePath)];
      assert parsedJsons.Keys == known + {filePath};
      UnparsedShrinks(disk.files, known, filePath);
      ghost var stored := parsedJsons;
      var _ := LoadDependencies(disk, env, parse, parsedJsons[filePath], bound);
      ExtendsTrans(parsedJsons, stored, old(parsedJsons));
      return parsedJsons[filePath];
    }

    /** `load_asset`: a hit returns the cached file and changes nothing; a
        miss loads it with `load_asset_file` and caches it. */
    method LoadAsset(disk: Disk, env: Env, parse: seq<byte> -> Document, filePathInput: string)
      returns (a: AssetFile)
      requires Consistent(disk.files, parse, env)
      modifies this
      ensures Consistent(disk.files, parse, env) && Grown()
      ensures a == LoadedAsset(disk.files, Normalize(filePathInput), env)
      ensures parsedJsons == old(parsedJsons)
      ensures parsedAssets == old(parsedAssets)[Normalize(filePathInput) := a]
    {
      var filePath := Normalize(filePathInput);
      if filePath in parsedAssets {
        a := parsedAssets[filePath];
        assert a == LoadedAsset(disk.files, filePath, env);
        assert parsedAssets == parsedAssets[filePath := a];
        return;
      }
      a := LoadAssetFile(disk, filePath, env);
      ghost var before := parsedAssets;
      parsedAssets := parsedAssets[filePath := a];
      forall k | k in parsedAssets
        ensures parsedAssets[k] == LoadedAsset(disk.files, k, env)
      {
        if k != filePath {
          assert parsedAssets[k] == before[k];
        }
      }
    }

    /** `load_dependencies`: the "dependencies" list in file order (empty
        without that key); each one is loaded as an asset or as JSON by its
        category, under its resolved path. `bound` is a ghost measure: a
        document with dependencies comes from a file that has just been
        parsed, so fewer files are left to parse than before. */
    method LoadDependencies(disk: Disk, env: Env, parse: seq<byte> -> Document, j: Document, ghost bound: nat)
      returns (list: seq<string>)
      requires Consistent(disk.files, parse, env)
      requires j.dependencies.Some? ==> |Unparsed(disk.files)| < bound
      modifies this
      ensures Consistent(disk.files, parse, env) && Grown()
      ensures j.dependencies.None? ==>
        list == [] && parsedJsons == old(parsedJsons) && parsedAssets == old(parsedAssets)
      ensures j.dependencies.Some? ==> list == j.dependencies.value
      ensures AllLoaded(list, env, parsedJsons, parsedAssets)
      decreases bound, 0
    {
      list := [];
      if j.dependencies.None? {
        return;
      }
      var dependencies := j.dependencies.value;
      var i := 0;
      while i < |dependencies|
        invariant 0 <= i <= |dependencies| && list == dependencies[..i]
        invariant Consistent(disk.files, parse, env) && Grown()
        invariant |Unparsed(disk.files)| < bound
        invariant AllLoaded(list, env, parsedJsons, parsedAssets)
      {
        var filePath := dependencies[i];
        var t := FileTypeFromPath(filePath);
        var category := Category(t);
        ghost var jsons, assets := parsedJsons, parsedAssets;
        if category == Asset {
          var _ := LoadAsset(disk, env, parse, ToResourcePath(filePath, env));
        }
        if category == Json {
          var _ := LoadJson(disk, env, parse, ToResourcePath(filePath, env));
        }
        ExtendsTrans(parsedJsons, jsons, old(parsedJsons));
        ExtendsTrans(parsedAssets, assets, old(parsedAssets));
        UnparsedMonotone(disk.files, jsons.Keys, parsedJsons.Keys);
        AllLoadedGrow(list, env, jsons, assets, parsedJsons, parsedAssets);
        assert LoadedIn(filePath, env, parsedJsons, parsedAssets);
        AllLoadedSnoc(list, filePath, env, parsedJsons, parsedAssets);
        TakeSnoc(dependencies, i);
        list := list + [filePath];
        i := i + 1;
      }
    }
  }

  lemma {:induction false} TakeSnoc<T>(s: seq<T>, i: nat)
    requires i < |s|
    ensures s[..i + 1] == s[..i] + [s[i]]
  {
  }

  /** A dependency has been loaded the way its category asks, under the
      normalised form of its resolved path. */
  ghost predicate LoadedIn(d: string, env: Env, jsons: map<string, Document>, assets: map<string, AssetFile>) {
    var key := Normalize(ToResourcePath(d, env));
    var category := Category(TypeOfExtension(PathExtension(d)));
    && (category == Asset ==> key in assets)
    && (category == Json ==> key in jsons)
  }

  ghost predicate AllLoaded(list: seq<string>, env: Env, jsons: map<string, Document>, assets: map<string, AssetFile>) {
    forall d :: d in list ==> LoadedIn(d, env, jsons, assets)
  }

  lemma {:induction false} AllLoadedGrow(list: seq<string>, env: Env, jsons: map<string, Document>, assets: map<string, AssetFile>,
                      jsons': map<string, Document>, assets': map<string, AssetFile>)
    requires AllLoaded(list, env, jsons, assets) && Extends(jsons', jsons) && Extends(assets', assets)
    ensures AllLoaded(list, env, jsons', assets')
  {
  }

  lemma {:induction false} AllLoadedSnoc(list: seq<string>, d: string, env: Env, jsons: map<string, Document>, assets: map<string, AssetFile>)
    requires AllLoaded(list, env, jsons, assets) && LoadedIn(d, env, jsons, assets)
    ensures AllLoaded(list + [d], env, jsons, assets)
  {
  }

  ghost predicate JsonsMatch(parsed: map<string, Document>, files: map<string, seq<byte>>,
                             parse: seq<byte> -> Document)
  {
    forall k :: k in parsed ==> parsed[k] == ParseFile(files, parse, k)
  }

  ghost predicate AssetsMatch(parsed: map<string, AssetFile>, files: map<string, seq<byte>>, env: Env) {
    forall k :: k in parsed ==> parsed[k] == LoadedAsset(files, k, env)
  }

  /** `bigger` keeps every entry of `smaller`. */
  ghost predicate Extends<V>(bigger: map<string, V>, smaller: map<string, V>) {
    forall k :: k in smaller ==> k in bigger && bigger[k] == smaller[k]
  }

  lemma {:induction false} ExtendsTrans<V>(a: map<string, V>, b: map<string, V>, c: map<string, V>)
    requires Extends(a, b) && Extends(b, c)
    ensures Extends(a, c)
  {
  }

  /** Parsing one more file on disk leaves one file fewer to parse. */
  lemma {:induction false} UnparsedShrinks(files: map<string, seq<byte>>, known: set<string>, key: string)
    requires key !in known
    ensures key in files ==> |files.Keys - (known + {key})| < |files.Keys - known|
  {
    if key in files {
      assert files.Keys - known == (files.Keys - (known + {key})) + {key};
    }
  }

  /** Parsing more files never leaves more to parse. */
  lemma {:induction false} UnparsedMonotone(files: map<string, seq<byte>>, before: set<string>, after: set<string>)
    requires before <= after
    ensures |files.Keys - after| <= |files.Keys - before|
  {
    SubsetCardinality(files.Keys - after, files.Keys - before);
  }

  lemma {:induction false} SubsetCardinality<T>(a: set<T>, b: set<T>)
    requires a <= b
    ensures |a| <= |b|
    decreases |b|
  {
    if a != {} {
      var x :| x in a;
      SubsetCardinality(a - {x}, b - {x});
    }
  }
}
