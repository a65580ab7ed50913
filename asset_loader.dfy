/** The binary asset file (`asset_loader.cpp`): a 16-byte header (four type
    bytes, then the version, the JSON length and the blob length as native
    32-bit words), the JSON text, then the binary blob. `save_asset_file`
    writes those fields one by one to an output stream and
    `load_asset_file` reads them back one by one from an input stream,
    sizing the JSON text and the blob from the stored lengths and checking
    nothing. */
module AssetLoader {
  import opened Common
  import opened GameFiles

  /** A `uint32`. */
  type u32 = x: int | 0 <= x < TWO_32

  /** The four type bytes of the header. */
  type Tag = s: seq<byte> | |s| == 4 witness [0, 0, 0, 0]

  /** `AssetFile`. The JSON document is held as the text `dump_json` writes
      and `parse` reads back. */
  datatype AssetFile = AssetFile(fileName: string, kind: Tag, version: u32, json: seq<byte>, blob: seq<byte>)

  /** A default-constructed `AssetFile`. */
  const EMPTY: AssetFile := AssetFile("", [0, 0, 0, 0], 0, [], [])

  /** `n` zero bytes: what `resize` fills a string or a byte vector with. */
  function Zeros(n: nat): (r: seq<byte>)
    ensures |r| == n && forall i :: 0 <= i < n ==> r[i] == 0
  {
    seq(n, _ => 0)
  }

  /** A `uint32` as the four bytes `write((const char*) &v, 4)` stores. */
  function Word(v: u32): (r: seq<byte>)
    ensures |r| == 4 && FromLittleEndian(r) == v
  {
    Pow256Four();
    LittleEndian(v, 4)
  }

  /** `(uint32) n`: the cast keeps the low 32 bits. */
  function Truncate(n: nat): u32 {
    n % TWO_32
  }

  /** The file `save_asset_file` writes: the header fields, the first
      `json_length` bytes of the JSON text and the whole blob. */
  function Encode(a: AssetFile): (r: seq<byte>)
    ensures |r| == 16 + Truncate(|a.json|) + |a.blob|
  {
    a.kind + Word(a.version) + Word(Truncate(|a.json|)) + Word(Truncate(|a.blob|))
      + a.json[..Truncate(|a.json|)] + a.blob
  }

  /** Where an input stream stands: its read position and its fail flag. */
  datatype StreamState = StreamState(pos: nat, failed: bool)

  /** `infile.read(dest, |dest|)` on a file holding `data`: a failed stream
      extracts nothing; otherwise the bytes up to the end of the file
      overwrite the front of `dest`, and reading fewer than asked sets the
      fail flag. */
  function ReadInto(data: seq<byte>, s: StreamState, dest: seq<byte>): (r: (seq<byte>, StreamState))
    requires s.pos <= |data|
    ensures |r.0| == |dest| && s.pos <= r.1.pos <= |data|
    ensures !s.failed && s.pos + |dest| <= |data| ==>
      r.0 == data[s.pos..s.pos + |dest|] && r.1 == StreamState(s.pos + |dest|, false)
  {
    if s.failed then (dest, s)
    else
      var k := Min(|dest|, |data| - s.pos);
      (data[s.pos..s.pos + k] + dest[k..], StreamState(s.pos + k, k < |dest|))
  }

  /** The four header reads of `load_asset_file`: the type bytes, the
      version and the two lengths, each read into its default value, and the
      stream state after them. A file that holds a whole header yields its
      first 16 bytes. */
  function ReadHeader(data: seq<byte>): (r: (Tag, u32, nat, nat, StreamState))
    ensures r.4.pos <= |data|
    ensures |data| >= 16 ==> r == (data[..4], FromLittleEndian(data[4..8]),
      FromLittleEndian(data[8..12]), FromLittleEndian(data[12..16]), StreamState(16, false))
  {
    var (kind, s1) := ReadInto(data, StreamState(0, false), EMPTY.kind);
    var (version, s2) := ReadInto(data, s1, Word(EMPTY.version));
    var (jsonLength, s3) := ReadInto(data, s2, Word(0));
    var (blobLength, s4) := ReadInto(data, s3, Word(0));
    Pow256Four();
    (kind, FromLittleEndian(version), FromLittleEndian(jsonLength), FromLittleEndian(blobLength), s4)
  }

  /** What `load_asset_file` builds from an opened file holding `data`: the
      header, then the JSON text and the blob read into zero-filled buffers
      of the stored lengths. The file name is never set. */
  function Decode(data: seq<byte>): (a: AssetFile)
    ensures a.fileName == ""
  {
    var (kind, version, jsonLength, blobLength, s4) := ReadHeader(data);
    var (json, s5) := ReadInto(data, s4, Zeros(jsonLength));
    var (blob, _) := ReadInto(data, s5, Zeros(blobLength));
    AssetFile("", kind, version, json, blob)
  }

  /** Where each field of an encoded file lies. */
  lemma {:induction false} Layout(kind: seq<byte>, w1: seq<byte>, w2: seq<byte>, w3: seq<byte>, json: seq<byte>, blob: seq<byte>)
    requires |kind| == 4 && |w1| == 4 && |w2| == 4 && |w3| == 4
    ensures var d := kind + w1 + w2 + w3 + json + blob;
      && |d| == 16 + |json| + |blob|
      && d[..4] == kind && d[4..8] == w1 && d[8..12] == w2 && d[12..16] == w3
      && d[16..16 + |json|] == json && d[16 + |json|..] == blob
  {
  }

  /** Loading what was saved gives back the type, the version, the JSON text
      and the blob, as long as both lengths fit in a `uint32`; the file name
      is not part of the file. */
  lemma {:induction false} DecodeEncode(a: AssetFile)
    requires |a.json| < TWO_32 && |a.blob| < TWO_32
    ensures Decode(Encode(a)) == a.(fileName := "")
  {
    var n := |a.json|;
    assert Truncate(n) == n && Truncate(|a.blob|) == |a.blob|;
    assert a.json[..n] == a.json;
    var data := Encode(a);
    Layout(a.kind, Word(a.version), Word(n), Word(|a.blob|), a.json, a.blob);
    assert ReadHeader(data) == (a.kind, a.version, n, |a.blob|, StreamState(16, false));
    var (json, s5) := ReadInto(data, StreamState(16, false), Zeros(n));
    assert json == a.json && s5 == StreamState(16 + n, false);
  }

  /** The two body reads after a complete header: each takes what the file
      still holds and keeps the zero fill for the rest. */
  lemma {:induction false} ReadBody(data: seq<byte>, jsonLength: nat, blobLength: nat)
    requires |data| >= 16
    ensures var padded := data[16..] + Zeros(jsonLength + blobLength);
      var (json, s5) := ReadInto(data, StreamState(16, false), Zeros(jsonLength));
      var (blob, _) := ReadInto(data, s5, Zeros(blobLength));
      json == padded[..jsonLength] && blob == padded[jsonLength..jsonLength + blobLength]
  {
    var padded := data[16..] + Zeros(jsonLength + blobLength);
    var (json, s5) := ReadInto(data, StreamState(16, false), Zeros(jsonLength));
    var (blob, _) := ReadInto(data, s5, Zeros(blobLength));
    if 16 + jsonLength <= |data| {
      assert json == data[16..16 + jsonLength] == padded[..jsonLength];
      assert s5 == StreamState(16 + jsonLength, false);
      if 16 + jsonLength + blobLength <= |data| {
        assert blob == data[16 + jsonLength..16 + jsonLength + blobLength];
      } else {
        var k := |data| - 16 - jsonLength;
        assert blob == data[16 + jsonLength..] + Zeros(blobLength)[k..];
        forall i | 0 <= i < blobLength
          ensures blob[i] == padded[jsonLength..jsonLength + blobLength][i]
        {
          if i >= k {
            assert blob[i] == 0;
          }
        }
      }
    } else {
      var k := |data| - 16;
      assert json == data[16..] + Zeros(jsonLength)[k..];
      forall i | 0 <= i < jsonLength
        ensures json[i] == padded[..jsonLength][i]
      {
        if i >= k {
          assert json[i] == 0;
        }
      }
      assert s5.failed;
      assert blob == Zeros(blobLength);
      forall i | 0 <= i < blobLength
        ensures blob[i] == padded[jsonLength..jsonLength + blobLength][i]
      {
        assert padded[jsonLength + i] == 0;
      }
    }
  }

  /** Nothing is checked on load: whatever a file holds, the type bytes and
      the version are taken as they stand, the JSON text and the blob are
      sized from the stored lengths, and bytes missing at the end of a short
      file read as zeros. */
  lemma {:induction false} DecodeTrusts(data: seq<byte>)
    requires |data| >= 16
    ensures var a := Decode(data);
      var jsonLength := FromLittleEndian(data[8..12]);
      var blobLength := FromLittleEndian(data[12..16]);
      && a.kind == data[..4] && a.version == FromLittleEndian(data[4..8])
      && |a.json| == jsonLength && |a.blob| == blobLength
      && a.json + a.blob == (data[16..] + Zeros(jsonLength + blobLength))[..jsonLength + blobLength]
  {
    var jsonLength := FromLittleEndian(data[8..12]);
    var blobLength := FromLittleEndian(data[12..16]);
    ReadBody(data, jsonLength, blobLength);
    var padded := data[16..] + Zeros(jsonLength + blobLength);
    assert padded[..jsonLength + blobLength] == padded[..jsonLength] + padded[jsonLength..jsonLength + blobLength];
  }

  /** A `std::ofstream` opened for writing: the bytes written so far. */
  class OutStream {
    var written: seq<byte>

    constructor ()
      ensures written == []
    {
      written := [];
    }

    /** `outfile.write(bytes, n)`: the bytes go to the end of the file. */
    method Write(bytes: seq<byte>)
      modifies this
      ensures written == old(written) + bytes
    {
      written := written + bytes;
    }
  }

  /** A `std::ifstream` opened on a file holding `data`. */
  class InStream {
    const data: seq<byte>
    var state: StreamState

    ghost predicate Valid()
      reads this
    {
      state.pos <= |data|
    }

    constructor (data: seq<byte>)
      ensures Valid() && this.data == data && state == StreamState(0, false)
    {
      this.data := data;
      state := StreamState(0, false);
    }

    /** `infile.read(dest, |dest|)`: returns `dest` overwritten by what could
        be read, and advances the stream. */
    method Read(dest: seq<byte>) returns (r: seq<byte>)
      requires Valid()
      modifies this
      ensures Valid() && (r, state) == ReadInto(data, old(state), dest)
    {
      if state.failed {
        return dest;
      }
      var k := Min(|dest|, |data| - state.pos);
      r := data[state.pos..state.pos + k] + dest[k..];
      state := StreamState(state.pos + k, k < |dest|);
    }
  }

  /** `save_asset_file`, given whether the output file could be opened: on
      failure nothing is written; otherwise the file at the resolved path is
      replaced by the encoded asset, of `16 + json_length + blob_length`
      bytes. */
  method SaveAssetFile(disk: Disk, a: AssetFile, env: Env, opens: bool)
    modifies disk
    ensures !opens ==> disk.files == old(disk.files)
    ensures opens ==> disk.files == old(disk.files)[ToResourcePath(a.fileName, env) := Encode(a)]
  {
    if !opens {
      return;
    }
    var outfile := new OutStream();
    var jsonLength := Truncate(|a.json|);
    var blobLength := Truncate(|a.blob|);
    outfile.Write(a.kind);
    outfile.Write(Word(a.version));
    outfile.Write(Word(jsonLength));
    outfile.Write(Word(blobLength));
    outfile.Write(a.json[..jsonLength]);
    outfile.Write(a.blob);
    assert outfile.written == Encode(a);
    disk.files := disk.files[ToResourcePath(a.fileName, env) := outfile.written];
  }

  /** What `load_asset_file` returns for `fileName`: a default `AssetFile`
      when the resolved path cannot be opened, the decoded file otherwise. */
  function LoadedAsset(files: map<string, seq<byte>>, fileName: string, env: Env): AssetFile {
    var path := ToResourcePath(fileName, env);
    if path in files then Decode(files[path]) else EMPTY
  }

  /** `load_asset_file`: a file that cannot be opened gives a default
      `AssetFile`; any other is read field by field, as `Decode` describes. */
  method LoadAssetFile(disk: Disk, fileName: string, env: Env) returns (a: AssetFile)
    ensures ToResourcePath(fileName, env) !in disk.files ==> a == EMPTY
    ensures ToResourcePath(fileName, env) in disk.files ==>
      a == Decode(disk.files[ToResourcePath(fileName, env)])
    ensures a == LoadedAsset(disk.files, fileName, env)
  {
    var path := ToResourcePath(fileName, env);
    if path !in disk.files {
      return EMPTY;
    }
    var infile := new InStream(disk.files[path]);
    var kind := infile.Read(EMPTY.kind);
    var version := infile.Read(Word(EMPTY.version));
    var jsonLength := infile.Read(Word(0));
    var blobLength := infile.Read(Word(0));
    Pow256Four();
    assert ReadHeader(infile.data) == (kind, FromLittleEndian(version),
      FromLittleEndian(jsonLength), FromLittleEndian(blobLength), infile.state);
    var json := infile.Read(Zeros(FromLittleEndian(jsonLength)));
    var blob := infile.Read(Zeros(FromLittleEndian(blobLength)));
    a := AssetFile("", kind, FromLittleEndian(version), json, blob);
  }

  /** Saving an asset and loading it from the same name gives back its
      contents, when both lengths fit in a `uint32`. */
  lemma {:induction false} SaveThenLoad(files: map<string, seq<byte>>, a: AssetFile, env: Env)
    requires |a.json| < TWO_32 && |a.blob| < TWO_32
    ensures var saved := files[ToResourcePath(a.fileName, env) := Encode(a)];
      Decode(saved[ToResourcePath(a.fileName, env)]) == a.(fileName := "")
  {
    DecodeEncode(a);
  }
}
