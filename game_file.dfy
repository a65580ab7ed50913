/** The game's file tables (`game_file.cpp`): which extension each file type
    is saved under, how a path's extension is mapped back to a type, the
    category that decides how a dependency is loaded, the drag-and-drop keys
    and path filters of the editor, resource-path resolution, and the
    "Auto Populate" scanner that collects quoted `.sb` paths from a file. */
module GameFiles {
  import opened Common

  /** `FileType`, in enumerator order. */
  datatype FileType =
    | Directory | TextureAsset | ModelAsset | Texture | Material | Mesh | Model | General

  /** Every file type, in enumerator order: the order `file_type_from_path`
      tries them in. */
  const FILE_TYPES: seq<FileType> :=
    [Directory, TextureAsset, ModelAsset, Texture, Material, Mesh, Model, General]

  datatype FileCategory = Json | Asset | Other

  /** The five types the game saves files of. */
  predicate Saved(t: FileType) {
    t.General? || t.Model? || t.Texture? || t.Mesh? || t.Material?
  }

  /** `extension`: the file extension a type is saved under, or "NYI". */
  function Extension(t: FileType): (r: string)
    ensures Saved(t) <==> r != "NYI"
    ensures Saved(t) ==> |r| == 6 && r[..3] == ".sb"
  {
    match t
    case General => ".sbgen"
    case Model => ".sbmod"
    case Texture => ".sbtex"
    case Mesh => ".sbmsh"
    case Material => ".sbmat"
    case _ => "NYI"
  }

  /** The type a file with extension `e` is read as: the saved type with that
      extension, and `General` for every other extension. */
  function TypeOfExtension(e: string): FileType {
    if e == ".sbgen" then General
    else if e == ".sbmod" then Model
    else if e == ".sbtex" then Texture
    else if e == ".sbmsh" then Mesh
    else if e == ".sbmat" then Material
    else General
  }

  /** Saved types are told apart by their extensions: reading a type back
      from its extension gives the same type. */
  lemma {:induction false} ExtensionRoundTrip(t: FileType)
    requires Saved(t)
    ensures TypeOfExtension(Extension(t)) == t
  {
  }

  predicate IsSeparator(c: char) {
    c == '/' || c == '\\'
  }

  /** The last component of a path: everything after its last separator. */
  function FileName(path: string): (r: string)
    ensures |r| <= |path| && r == path[|path| - |r|..]
    ensures forall i :: 0 <= i < |r| ==> !IsSeparator(r[i])
    ensures |r| < |path| ==> IsSeparator(path[|path| - |r| - 1])
  {
    if path == [] || IsSeparator(path[|path| - 1]) then []
    else FileName(path[..|path| - 1]) + [path[|path| - 1]]
  }

  /** The position of the last `.` in `s`, or -1 when there is none. */
  function LastDot(s: string): (r: int)
    ensures -1 <= r < |s|
    ensures r >= 0 ==> s[r] == '.'
    ensures forall i :: r < i < |s| ==> s[i] != '.'
  {
    if s == [] then -1
    else if s[|s| - 1] == '.' then |s| - 1
    else LastDot(s[..|s| - 1])
  }

  /** `path.extension()`: the file name from its last `.` on; empty when the
      name has no `.`, when its only `.` starts it, and for `.` and `..`. */
  function PathExtension(path: string): string {
    var name := FileName(path);
    var dot := LastDot(name);
    if name == "." || name == ".." || dot <= 0 then "" else name[dot..]
  }

  /** An extension is empty or a `.` followed by a dot-free, separator-free
      tail, and it ends the path. */
  lemma {:induction false} PathExtensionShape(path: string)
    ensures var e := PathExtension(path);
      && |e| <= |path| && e == path[|path| - |e|..]
      && (e == "" || e[0] == '.')
      && (forall i :: 0 < i < |e| ==> e[i] != '.' && !IsSeparator(e[i]))
  {
    var name := FileName(path);
    var e := PathExtension(path);
    assert e == "" || e == name[LastDot(name)..];
  }

  /** `file_type_from_path`: the first type, in enumerator order, whose
      extension equals the path's; `General` when none does. Because a path's
      extension never reads "NYI", the result is the type `TypeOfExtension`
      names, and never `Directory`, `TextureAsset` or `ModelAsset`. */
  method FileTypeFromPath(path: string) returns (t: FileType)
    ensures t == TypeOfExtension(PathExtension(path))
    ensures Saved(t)
  {
    PathExtensionShape(path);
    t := FirstTypeWithExtension(PathExtension(path));
  }

  /** The search loop of `file_type_from_path`, over the extension string. */
  method FirstTypeWithExtension(e: string) returns (t: FileType)
    requires e == "" || e[0] == '.'
    ensures t == TypeOfExtension(e)
    ensures Saved(t)
  {
    var i := 0;
    while i < |FILE_TYPES|
      invariant 0 <= i <= |FILE_TYPES|
      invariant forall j :: 0 <= j < i ==> Extension(FILE_TYPES[j]) != e
    {
      if Extension(FILE_TYPES[i]) == e {
        assert e != "NYI";
        ExtensionRoundTrip(FILE_TYPES[i]);
        return FILE_TYPES[i];
      }
      i := i + 1;
    }
    assert Extension(FILE_TYPES[3]) != e && Extension(FILE_TYPES[4]) != e;
    assert Extension(FILE_TYPES[5]) != e && Extension(FILE_TYPES[6]) != e;
    return General;
  }

  /** `file_category`: how a dependency of this type is loaded. */
  function Category(t: FileType): FileCategory {
    match t
    case Texture | Mesh => Asset
    case General | Model | Material => Json
    case _ => Other
  }

  /** Every path the game classifies is loaded one way or the other: binary
      assets are exactly the `.sbtex` and `.sbmsh` files, and everything else
      is read as JSON. */
  lemma {:induction false} CategoryOfPath(path: string)
    ensures Category(TypeOfExtension(PathExtension(path))) != Other
    ensures Category(TypeOfExtension(PathExtension(path))) == Asset <==>
      PathExtension(path) == ".sbtex" || PathExtension(path) == ".sbmsh"
  {
    CategoryOfExtension(PathExtension(path));
  }

  lemma {:induction false} CategoryOfExtension(e: string)
    ensures Category(TypeOfExtension(e)) != Other
    ensures Category(TypeOfExtension(e)) == Asset <==> e == ".sbtex" || e == ".sbmsh"
  {
    var t := TypeOfExtension(e);
    assert Saved(t);
    ExtensionOfType(e);
    if t.Texture? || t.Mesh? {
      assert e == Extension(t);
    }
  }

  /** `dnd_key`: the drag-and-drop payload name of a type. */
  function DndKey(t: FileType): string {
    match t
    case Directory => "DND_DIRECTORY"
    case General => "DND_GENERAL"
    case Model => "DND_MODEL"
    case ModelAsset => "DND_MODEL_ASSET"
    case Texture => "DND_TEXTURE"
    case TextureAsset => "DND_TEXTURE_ASSET"
    case Mesh => "DND_MESH"
    case Material => "DND_MATERIAL"
  }

  /** Each of the eight types has its own drag-and-drop key. */
  lemma {:induction false} DndKeyInjective(a: FileType, b: FileType)
    ensures DndKey(a) == DndKey(b) ==> a == b
  {
    if DndKey(a) == DndKey(b) {
      var k := DndKey(a);
      assert k[4] == DndKey(b)[4] && |k| == |DndKey(b)|;
      assert k[|k| - 1] == DndKey(b)[|k| - 1];
    }
  }

  /** What the filesystem holds at a path, as `is_directory` and
      `is_regular_file` see it. */
  datatype Entry = Folder | RegularFile | OtherEntry | Missing

  /** `path_filter(type)` applied to a path: directories for `Directory`,
      regular files for `General`, glTF and image files for the two imported
      asset types, and the type's own extension for the rest. */
  function Accepts(t: FileType, path: string, entry: Entry): bool {
    var e := PathExtension(path);
    match t
    case Directory => entry == Folder
    case General => entry == RegularFile
    case ModelAsset => e in [".gltf", ".glb"]
    case TextureAsset => e in [".png", ".jpg", ".jpeg"]
    case _ => e == Extension(t)
  }

  /** For the four typed game files, the editor's filter accepts a path
      exactly when `file_type_from_path` reads it as that type. */
  lemma {:induction false} AcceptsAgreesWithType(t: FileType, path: string, entry: Entry)
    requires t.Model? || t.Texture? || t.Mesh? || t.Material?
    ensures Accepts(t, path, entry) <==> TypeOfExtension(PathExtension(path)) == t
  {
    var e := PathExtension(path);
    assert Accepts(t, path, entry) == (e == Extension(t));
    if e == Extension(t) {
      ExtensionRoundTrip(t);
    } else {
      ExtensionOfType(e);
    }
  }

  /** Only a saved type's own extension is read as a type other than `General`. */
  lemma {:induction false} ExtensionOfType(e: string)
    ensures TypeOfExtension(e) != General ==> e == Extension(TypeOfExtension(e))
  {
  }

  /** The editor state `to_resource_path` reads: the working directory, the
      resource folder, and the resource folder written relative to the
      working directory (`lexically_proximate`, computed by the platform). */
  datatype Env = Env(currentPath: string, resourceFolder: string, resourcePrefix: string)

  // Paths follow `std::filesystem` on Windows, the only platform the game
  // targets: a path may begin with a drive (`C:`, its root name), then a
  // separator (its root directory), and only a path with both is absolute.
  // UNC and device prefixes (`\\server`, `\\?\`) are not modelled.

  predicate IsDriveLetter(c: char) {
    'A' <= c <= 'Z' || 'a' <= c <= 'z'
  }

  predicate HasRootName(path: string) {
    |path| >= 2 && IsDriveLetter(path[0]) && path[1] == ':'
  }

  /** The drive of a path, or the empty string. */
  function RootName(path: string): (r: string)
    ensures |r| <= |path| && r == path[..|r|]
    ensures HasRootName(path) <==> r != []
  {
    if HasRootName(path) then path[..2] else []
  }

  /** A path with its drive removed. */
  function AfterRootName(path: string): string
  {
    path[|RootName(path)|..]
  }

  predicate HasRootDirectory(path: string) {
    var rest := AfterRootName(path);
    |rest| > 0 && IsSeparator(rest[0])
  }

  predicate IsAbsolute(path: string) {
    HasRootName(path) && HasRootDirectory(path)
  }

  /** A path with neither drive nor root directory, such as `a\b.sbmsh`. */
  predicate IsPlainRelative(path: string) {
    !HasRootName(path) && !HasRootDirectory(path)
  }

  /** Something follows the last separator and the drive. */
  predicate HasFilename(path: string) {
    |AfterRootName(path)| > 0 && !IsSeparator(path[|path| - 1])
  }

  /** `a / b` as `std::filesystem::path::operator/=` defines it on Windows:
      `b` replaces `a` when it is absolute or names another drive; a `b`
      with a root directory keeps only the drive of `a`; otherwise the
      preferred separator `\` is inserted when `a` ends in a file name, and
      `b` is appended without its drive. */
  function Join(a: string, b: string): (r: string)
    ensures IsPlainRelative(b) ==> StartsWith(r, a) && |b| <= |r| && r[|r| - |b|..] == b
    ensures HasRootName(b) && RootName(b) != RootName(a) ==> r == b
    ensures HasRootDirectory(b) && !HasRootName(b) ==> r == RootName(a) + b
    ensures IsAbsolute(a) && !(HasRootName(b) && RootName(b) != RootName(a)) ==> IsAbsolute(r)
  {
    if IsAbsolute(b) || (HasRootName(b) && RootName(b) != RootName(a)) then b
    else
      var base := if HasRootDirectory(b) then RootName(a) else a;
      var separator := if HasFilename(base) then "\\" else "";
      base + separator + AfterRootName(b)
  }

  /** `to_resource_path`: absolute paths are kept; a relative path that
      already starts with the resource folder's relative name is resolved
      against the working directory, any other against the resource folder. */
  function ToResourcePath(path: string, env: Env): (r: string)
    ensures IsAbsolute(path) ==> r == path
    ensures IsPlainRelative(path) ==> |path| <= |r| && r[|r| - |path|..] == path
    ensures IsPlainRelative(path) ==>
      StartsWith(r, if StartsWith(path, env.resourcePrefix) then env.currentPath else env.resourceFolder)
    ensures HasRootDirectory(path) && !HasRootName(path) ==>
      r == RootName(if StartsWith(path, env.resourcePrefix) then env.currentPath else env.resourceFolder) + path
  {
    if IsAbsolute(path) then path
    else if StartsWith(path, env.resourcePrefix) then Join(env.currentPath, path)
    else Join(env.resourceFolder, path)
  }

  /** With an absolute working directory and resource folder (`C:\...`),
      every resolved path is absolute, except one naming another drive
      without a root directory (`D:x`), which is returned as it is; either
      way resolving it again changes nothing. */
  lemma {:induction false} ToResourcePathIdempotent(path: string, env: Env)
    requires IsAbsolute(env.currentPath) && IsAbsolute(env.resourceFolder)
    ensures var r := ToResourcePath(path, env);
      IsAbsolute(r) || (HasRootName(path) && !HasRootDirectory(path) && r == path)
    ensures ToResourcePath(ToResourcePath(path, env), env) == ToResourcePath(path, env)
  {
    var r := ToResourcePath(path, env);
    if !IsAbsolute(path) {
      var base := if StartsWith(path, env.resourcePrefix) then env.currentPath else env.resourceFolder;
      assert r == Join(base, path);
      if HasRootName(path) && RootName(path) != RootName(base) {
        assert r == path;
      } else {
        assert IsAbsolute(r);
      }
    }
  }

  /** The filesystem: the bytes stored under each path. */
  class Disk {
    var files: map<string, seq<byte>>

    constructor (files: map<string, seq<byte>>)
      ensures this.files == files
    {
      this.files := files;
    }
  }

  /** `.sb` starts at position `i` of `s`. */
  predicate SbAt(s: string, i: nat) {
    i + 3 <= |s| && s[i] == '.' && s[i + 1] == 's' && s[i + 2] == 'b'
  }

  /** `contents.find(".sb", from)`: the first position at or after `from`
      where `.sb` starts, or -1 (`npos`). */
  function FindSb(s: string, from: nat): (r: int)
    ensures r == -1 || (from <= r && SbAt(s, r))
    ensures forall i :: from <= i && (r == -1 || i < r) ==> !SbAt(s, i)
    decreases |s| - from
  {
    if from + 3 > |s| then -1
    else if SbAt(s, from) then from
    else FindSb(s, from + 1)
  }

  /** `contents.rfind('"', at)`: the last quote at or before `at`, or -1. */
  function RFindQuote(s: string, at: int): (r: int)
    requires -1 <= at < |s|
    ensures -1 <= r <= at && (r >= 0 ==> s[r] == '"')
    ensures forall i :: r < i <= at && 0 <= i ==> s[i] != '"'
    decreases at + 1
  {
    if at < 0 then -1
    else if s[at] == '"' then at
    else RFindQuote(s, at - 1)
  }

  /** `contents.find_first_of('"', from)`: the first quote at or after
      `from`, or -1. */
  function FindQuote(s: string, from: nat): (r: int)
    ensures r == -1 || (from <= r < |s| && s[r] == '"')
    ensures forall i :: from <= i < |s| && (r == -1 || i < r) ==> s[i] != '"'
    decreases |s| - from
  {
    if from >= |s| then -1
    else if s[from] == '"' then from
    else FindQuote(s, from + 1)
  }

  /** The scanner's outcome from `startAt` on: the dependencies it pushes, in
      order, and whether it finished. A `.sb` with no closing quote after it
      makes the source build a string that runs past the end of `contents`
      (undefined behaviour); the model stops there with `finished` false. */
  function Scan(contents: string, startAt: nat): (r: (seq<string>, bool))
    decreases |contents| - startAt
  {
    if startAt >= |contents| then ([], true)
    else
      var sb := FindSb(contents, startAt);
      if sb == -1 then ([], true)
      else
        var startQuote := RFindQuote(contents, sb) + 1;
        var endQuote := FindQuote(contents, sb);
        if endQuote == -1 then ([], false)
        else
          assert endQuote >= sb + 3;
          var tail := Scan(contents, endQuote);
          ([contents[startQuote..endQuote]] + tail.0, tail.1)
  }

  /** Every dependency the scanner collects is a quote-free piece of the file
      that contains `.sb`. */
  lemma {:induction false} ScanShape(contents: string, startAt: nat)
    ensures forall d :: d in Scan(contents, startAt).0 ==>
      (forall i :: 0 <= i < |d| ==> d[i] != '"') &&
      exists k: nat :: SbAt(d, k)
    decreases |contents| - startAt
  {
    if startAt < |contents| {
      var sb := FindSb(contents, startAt);
      if sb != -1 {
        var startQuote := RFindQuote(contents, sb) + 1;
        var endQuote := FindQuote(contents, sb);
        if endQuote != -1 {
          ScanUnfold(contents, startAt, sb, startQuote, endQuote);
          ScanShape(contents, endQuote);
          PieceShape(contents, sb, startQuote, endQuote);
        }
      }
    }
  }

  /** The piece between the quotes around a `.sb` is quote-free and holds
      that `.sb`. */
  lemma {:induction false} PieceShape(contents: string, sb: nat, startQuote: int, endQuote: int)
    requires SbAt(contents, sb)
    requires startQuote == RFindQuote(contents, sb) + 1 && endQuote == FindQuote(contents, sb) && endQuote != -1
    ensures 0 <= startQuote <= sb < endQuote
    ensures var d := contents[startQuote..endQuote];
      (forall i :: 0 <= i < |d| ==> d[i] != '"') && SbAt(d, sb - startQuote)
  {
    assert contents[sb] != '"';
    assert endQuote >= sb + 3 by {
      assert contents[sb + 1] != '"' && contents[sb + 2] != '"';
    }
    var d := contents[startQuote..endQuote];
    assert forall i :: 0 <= i < |d| ==> d[i] == contents[startQuote + i];
  }

  /** The scan so far has pushed `dependencies`, and resuming it at
      `startAt` completes the scan of the whole file. */
  predicate ScannedUpTo(contents: string, dependencies: seq<string>, startAt: nat) {
    Scan(contents, 0) == (dependencies + Scan(contents, startAt).0, Scan(contents, startAt).1)
  }

  /** One round of the scan: the dependency found at `startAt` comes first,
      then whatever the scan resuming at its closing quote finds. */
  lemma {:induction false} ScanUnfold(contents: string, startAt: nat, sb: int, startQuote: int, endQuote: int)
    requires startAt < |contents| && sb == FindSb(contents, startAt) && sb != -1
    requires startQuote == RFindQuote(contents, sb) + 1 && endQuote == FindQuote(contents, sb)
    requires endQuote != -1
    ensures startAt < endQuote && 0 <= startQuote <= endQuote <= |contents|
    ensures Scan(contents, startAt) ==
      ([contents[startQuote..endQuote]] + Scan(contents, endQuote).0, Scan(contents, endQuote).1)
  {
    assert contents[sb] != '"';
  }

  lemma {:induction false} PushFound(total: (seq<string>, bool), dependencies: seq<string>, found: string,
                  rest: (seq<string>, bool))
    requires total == (dependencies + ([found] + rest.0), rest.1)
    ensures total == ((dependencies + [found]) + rest.0, rest.1)
  {
    assert dependencies + ([found] + rest.0) == (dependencies + [found]) + rest.0;
  }

  /** One round of the scan loop keeps `ScannedUpTo`: the dependency found
      at `startAt` is pushed and the scan resumes at its closing quote,
      strictly further on. */
  lemma {:induction false} ScanStep(contents: string, dependencies: seq<string>, startAt: nat,
                 sb: int, startQuote: int, endQuote: int)
    requires ScannedUpTo(contents, dependencies, startAt)
    requires startAt < |contents| && sb == FindSb(contents, startAt) && sb != -1
    requires startQuote == RFindQuote(contents, sb) + 1 && endQuote == FindQuote(contents, sb)
    requires endQuote != -1
    ensures startAt < endQuote && 0 <= startQuote <= endQuote <= |contents|
    ensures ScannedUpTo(contents, dependencies + [contents[startQuote..endQuote]], endQuote)
  {
    ScanUnfold(contents, startAt, sb, startQuote, endQuote);
    PushFound(Scan(contents, 0), dependencies, contents[startQuote..endQuote], Scan(contents, endQuote));
  }

  lemma {:induction false} ScanStart(contents: string)
    ensures ScannedUpTo(contents, [], 0)
  {
    assert [] + Scan(contents, 0).0 == Scan(contents, 0).0;
  }

  /** The scan ends where no `.sb` is left, and fails at a `.sb` with no
      closing quote. */
  lemma {:induction false} ScanStop(contents: string, dependencies: seq<string>, startAt: nat, finished: bool)
    requires ScannedUpTo(contents, dependencies, startAt)
    requires startAt >= |contents| || FindSb(contents, startAt) == -1 ==> finished
    requires startAt < |contents| && FindSb(contents, startAt) != -1 ==>
      !finished && FindQuote(contents, FindSb(contents, startAt)) == -1
    ensures Scan(contents, 0) == (dependencies, finished)
  {
    assert Scan(contents, startAt) == ([], finished);
    assert dependencies + [] == dependencies;
  }

  /** The "Auto Populate" scan of `inspect_dependencies`, over the file's
      `contents`: each `.sb` yields the text between the quote before it (or
      the start of the file, as `npos + 1` is 0) and the quote after it, and
      the search resumes at that closing quote, which lies strictly past the
      previous position. The source pushes onto the asset's existing
      `dependencies` vector; the result here is only what the scan adds,
      starting from an empty list. */
  method ScanDependencies(contents: string) returns (dependencies: seq<string>, finished: bool)
    ensures (dependencies, finished) == Scan(contents, 0)
  {
    dependencies := [];
    var startAt := 0;
    ScanStart(contents);
    while startAt < |contents|
      invariant 0 <= startAt
      invariant ScannedUpTo(contents, dependencies, startAt)
      decreases |contents| - startAt
    {
      var sb := FindSb(contents, startAt);
      if sb == -1 {
        ScanStop(contents, dependencies, startAt, true);
        return dependencies, true;
      }
      var startQuote := RFindQuote(contents, sb) + 1;
      var endQuote := FindQuote(contents, sb);
      if endQuote == -1 {
        ScanStop(contents, dependencies, startAt, false);
        return dependencies, false;
      }
      ScanStep(contents, dependencies, startAt, sb, startQuote, endQuote);
      dependencies := dependencies + [contents[startQuote..endQuote]];
      startAt := endQuote;
    }
    ScanStop(contents, dependencies, startAt, true);
    return dependencies, true;
  }
}
