/** The glTF buffer and index handling of `model.cpp`: gathering an
    accessor's elements out of a strided buffer view, decoding index
    components into 32-bit indices, flipping the winding of every triangle,
    and naming the mesh made from each primitive. Component sizes follow the
    componentType table of the glTF 2.0 specification. */
module Gltf {
  import opened Common

  type u32 = x: int | 0 <= x < TWO_32

  /** glTF `componentType` codes. */
  const BYTE: int := 5120
  const UNSIGNED_BYTE: int := 5121
  const SHORT: int := 5122
  const UNSIGNED_SHORT: int := 5123
  const INT: int := 5124
  const UNSIGNED_INT: int := 5125
  const FLOAT: int := 5126

  /** `GetComponentSizeInBytes`: the bytes of one component; unknown codes
      have no size. */
  function ComponentSize(componentType: int): (r: Option<nat>)
    ensures r.Some? ==> 1 <= r.value <= 4
  {
    if componentType == BYTE || componentType == UNSIGNED_BYTE then Some(1)
    else if componentType == SHORT || componentType == UNSIGNED_SHORT then Some(2)
    else if componentType == INT || componentType == UNSIGNED_INT || componentType == FLOAT then Some(4)
    else None
  }

  /** The byte distance between consecutive elements: a stride of 0 means
      the elements are packed, so the element size. */
  function Stride(byteStride: nat, elementSize: nat): (r: nat)
    ensures byteStride != 0 ==> r == byteStride
    ensures byteStride == 0 ==> r == elementSize
  {
    if byteStride == 0 then elementSize else byteStride
  }

  /** `a * n`, spelled out as `n` additions of `a` so that reasoning about
      offsets stays linear. */
  function Times(a: nat, n: nat): (r: nat)
    ensures n == 0 ==> r == 0
  {
    if n == 0 then 0 else Times(a, n - 1) + a
  }

  lemma {:induction false} TimesIsProduct(a: nat, n: nat)
    ensures Times(a, n) == a * n
  {
    if n > 0 {
      TimesIsProduct(a, n - 1);
    }
  }

  lemma {:induction false} TimesMonotone(a: nat, i: nat, j: nat)
    requires i <= j
    ensures Times(a, i) <= Times(a, j)
    decreases j
  {
    if i < j {
      TimesMonotone(a, i, j - 1);
    }
  }

  lemma {:induction false} TimesMonotoneLeft(a: nat, b: nat, n: nat)
    requires a <= b
    ensures Times(a, n) <= Times(b, n)
  {
    if n > 0 {
      TimesMonotoneLeft(a, b, n - 1);
    }
  }

  /** With at least one component, an element is at least one component
      long. */
  lemma {:induction false} ScaledUp(size: nat, components: nat, count: nat)
    ensures components >= 1 ==> size * count <= Times(Times(size, components), count)
  {
    if components >= 1 {
      TimesMonotone(size, 1, components);
      TimesMonotoneLeft(size, Times(size, components), count);
      TimesIsProduct(size, count);
    }
  }

  /** Every element of the accessor lies inside the buffer. */
  predicate InBuffer(dataLength: nat, start: nat, stride: nat, size: nat, count: nat) {
    count == 0 || start + Times(stride, count - 1) + size <= dataLength
  }

  lemma {:induction false} ElementInBuffer(dataLength: nat, start: nat, stride: nat, size: nat, count: nat, i: nat)
    requires InBuffer(dataLength, start, stride, size, count) && i < count
    ensures start + Times(stride, i) + size <= dataLength
  {
    TimesMonotone(stride, i, count - 1);
  }

  /** The `size` bytes of element `i`. */
  function Element(data: seq<byte>, start: nat, stride: nat, size: nat, i: nat): (r: seq<byte>)
    requires start + Times(stride, i) + size <= |data|
    ensures |r| == size
  {
    data[start + Times(stride, i)..start + Times(stride, i) + size]
  }

  /** The first `count` elements, one after the other. */
  function Gathered(data: seq<byte>, start: nat, stride: nat, size: nat, count: nat): (r: seq<byte>)
    requires InBuffer(|data|, start, stride, size, count)
    decreases count
  {
    if count == 0 then []
    else
      InBufferTail(|data|, start, stride, size, count);
      data[start..start + size] + Gathered(data, start + stride, stride, size, count - 1)
  }

  /** The elements after the first start one stride further on. */
  lemma {:induction false} InBufferTail(dataLength: nat, start: nat, stride: nat, size: nat, count: nat)
    requires InBuffer(dataLength, start, stride, size, count) && count > 0
    ensures start + size <= dataLength
    ensures InBuffer(dataLength, start + stride, stride, size, count - 1)
  {
    if count > 1 {
    }
  }

  lemma {:induction false} GatheredLength(data: seq<byte>, start: nat, stride: nat, size: nat, count: nat)
    requires InBuffer(|data|, start, stride, size, count)
    ensures |Gathered(data, start, stride, size, count)| == Times(size, count)
    decreases count
  {
    if count > 0 {
      InBufferTail(|data|, start, stride, size, count);
      GatheredLength(data, start + stride, stride, size, count - 1);
    }
  }

  /** The output holds element `i` at `size * i`, for every element. */
  lemma {:induction false} GatheredElement(data: seq<byte>, start: nat, stride: nat, size: nat, count: nat, i: nat)
    requires InBuffer(|data|, start, stride, size, count) && i < count
    ensures start + Times(stride, i) + size <= |data| && Times(size, i) + size <= Times(size, count)
    ensures |Gathered(data, start, stride, size, count)| == Times(size, count)
    ensures Gathered(data, start, stride, size, count)[Times(size, i)..Times(size, i) + size]
      == Element(data, start, stride, size, i)
    decreases count
  {
    GatheredLength(data, start, stride, size, count);
    ElementInBuffer(|data|, start, stride, size, count, i);
    TimesMonotone(size, i + 1, count);
    var at := Times(size, i);
    var g := Gathered(data, start, stride, size, count);
    forall j | 0 <= j < size
      ensures g[at..at + size][j] == Element(data, start, stride, size, i)[j]
    {
      GatheredByte(data, start, stride, size, count, i, j);
    }
  }

  /** Byte `j` of element `i` sits at `size * i + j` in the output. */
  lemma {:induction false} GatheredByte(data: seq<byte>, start: nat, stride: nat, size: nat, count: nat, i: nat, j: nat)
    requires InBuffer(|data|, start, stride, size, count) && i < count && j < size
    ensures start + Times(stride, i) + j < |data|
    ensures Times(size, i) + j < |Gathered(data, start, stride, size, count)|
    ensures Gathered(data, start, stride, size, count)[Times(size, i) + j] == data[start + Times(stride, i) + j]
    decreases count
  {
    GatheredUnfold(data, start, stride, size, count);
    var g := Gathered(data, start, stride, size, count);
    var head := data[start..start + size];
    var rest := Gathered(data, start + stride, stride, size, count - 1);
    assert |g| == size + |rest|;
    if i > 0 {
      GatheredByte(data, start + stride, stride, size, count - 1, i - 1, j);
      var k := Times(size, i - 1) + j;
      assert Times(size, i) + j == size + k;
      assert g[size + k] == rest[k];
      assert start + Times(stride, i) + j == start + stride + Times(stride, i - 1) + j;
    } else {
      assert g[j] == head[j];
    }
  }

  /** The first element, then the rest one stride further on. */
  lemma {:induction false} GatheredUnfold(data: seq<byte>, start: nat, stride: nat, size: nat, count: nat)
    requires InBuffer(|data|, start, stride, size, count) && count > 0
    ensures start + size <= |data| && InBuffer(|data|, start + stride, stride, size, count - 1)
    ensures Gathered(data, start, stride, size, count)
      == data[start..start + size] + Gathered(data, start + stride, stride, size, count - 1)
  {
    InBufferTail(|data|, start, stride, size, count);
  }

  /** Packed elements (stride equal to the element size) are copied as one
      contiguous run of the buffer. */
  lemma {:induction false} GatheredPacked(data: seq<byte>, start: nat, size: nat, count: nat)
    requires InBuffer(|data|, start, size, size, count) && start <= |data|
    ensures start + Times(size, count) <= |data|
    ensures Gathered(data, start, size, size, count) == data[start..start + Times(size, count)]
    decreases count
  {
    if count > 0 {
      InBufferTail(|data|, start, size, size, count);
      GatheredPacked(data, start + size, size, count - 1);
      var end := start + Times(size, count);
      assert data[start..end] == data[start..start + size] + data[start + size..end];
    }
  }

  /** `_unpack_gltf_buffer`: the output is sized to `count` elements and
      element `i` is copied from `start + stride * i`, where `start` is the
      accessor's offset plus its view's offset inside the buffer and a stride
      of 0 means the element size. Nothing is checked: every element must lie
      inside the buffer. */
  method UnpackBuffer(data: seq<byte>, start: nat, byteStride: nat, elementSize: nat, count: nat)
    returns (output: array<byte>)
    requires InBuffer(|data|, start, Stride(byteStride, elementSize), elementSize, count)
    ensures fresh(output)
    ensures output[..] == Gathered(data, start, Stride(byteStride, elementSize), elementSize, count)
  {
    var stride := Stride(byteStride, elementSize);
    GatheredLength(data, start, stride, elementSize, count);
    output := new byte[Times(elementSize, count)](_ => 0);
    var i := 0;
    var target: nat, source: nat := 0, start;
    while i < count
      invariant 0 <= i <= count && UnpackedUpTo(output[..], data, start, stride, elementSize, count, i, target, source)
    {
      UnpackOne(output, data, start, stride, elementSize, count, i, target, source);
      i := i + 1;
      target, source := target + elementSize, source + stride;
    }
    assert output[..] == output[..target];
  }

  /** The copy loop after `i` elements: `target` bytes written, the next
      element read at `source`, and the bytes written followed by the
      elements still to read make up the whole output. */
  ghost predicate UnpackedUpTo(out: seq<byte>, data: seq<byte>, start: nat, stride: nat, size: nat, count: nat,
                               i: nat, target: nat, source: nat) {
    && i <= count
    && InBuffer(|data|, start, stride, size, count)
    && InBuffer(|data|, source, stride, size, count - i)
    && target + |Gathered(data, source, stride, size, count - i)| == |out|
    && Gathered(data, start, stride, size, count) == out[..target] + Gathered(data, source, stride, size, count - i)
  }

  /** One turn of the copy loop. */
  method UnpackOne(output: array<byte>, data: seq<byte>, start: nat, stride: nat, size: nat, count: nat,
                   i: nat, target: nat, source: nat)
    requires i < count && UnpackedUpTo(output[..], data, start, stride, size, count, i, target, source)
    modifies output
    ensures UnpackedUpTo(output[..], data, start, stride, size, count, i + 1, target + size, source + stride)
  {
    InBufferTail(|data|, source, stride, size, count - i);
    ghost var before := output[..target];
    ghost var now := before + data[source..source + size];
    ghost var rest := Gathered(data, source + stride, stride, size, count - i - 1);
    GatherStep(data, source, stride, size, count - i, before, now);
    CopyElement(output, data, target, source, size);
    assert output[..][..target + size] == now;
    assert target + size + |rest| == output.Length;
    assert Gathered(data, start, stride, size, count) == now + rest;
  }

  /** Copying the next element moves it from the part still to gather to
      the part gathered. */
  lemma {:induction false} GatherStep(data: seq<byte>, source: nat, stride: nat, size: nat, k: nat,
                   before: seq<byte>, now: seq<byte>)
    requires k > 0 && InBuffer(|data|, source, stride, size, k)
    requires source + size <= |data| && InBuffer(|data|, source + stride, stride, size, k - 1)
    requires now == before + data[source..source + size]
    ensures before + Gathered(data, source, stride, size, k) == now + Gathered(data, source + stride, stride, size, k - 1)
    ensures |Gathered(data, source, stride, size, k)| == size + |Gathered(data, source + stride, stride, size, k - 1)|
  {
    var element := data[source..source + size];
    var rest := Gathered(data, source + stride, stride, size, k - 1);
    assert Gathered(data, source, stride, size, k) == element + rest;
    assert before + (element + rest) == (before + element) + rest;
  }

  /** One turn of the copy loop: the `size` bytes at `source` land at
      `target`, after what is already gathered. */
  method CopyElement(output: array<byte>, data: seq<byte>, target: nat, source: nat, size: nat)
    requires target + size <= output.Length && source + size <= |data|
    modifies output
    ensures output[..target + size] == old(output[..target]) + data[source..source + size]
  {
    ghost var before := output[..target];
    forall j | 0 <= j < size {
      output[target + j] := data[source + j];
    }
    UnpackStep(output[..], before, target, data[source..source + size]);
  }

  lemma {:induction false} UnpackStep(out: seq<byte>, before: seq<byte>, target: nat, element: seq<byte>)
    requires target + |element| <= |out| && |before| == target
    requires forall k :: 0 <= k < target ==> out[k] == before[k]
    requires forall j :: 0 <= j < |element| ==> out[target + j] == element[j]
    ensures out[..target + |element|] == before + element
  {
    forall k | 0 <= k < target + |element|
      ensures out[k] == (before + element)[k]
    {
      if k >= target {
        assert out[target + (k - target)] == element[k - target];
      }
    }
  }

  /** The bytes one index component takes up when it is a type the decoder
      reads, else 0. */
  function IndexWidth(componentType: int): (w: nat)
    ensures w == 0 || w == 2 || w == 4
  {
    if componentType == SHORT || componentType == UNSIGNED_SHORT then 2
    else if componentType == INT || componentType == UNSIGNED_INT then 4
    else 0
  }

  /** The unpacked bytes hold `count` components of the decoded width. */
  predicate HoldsIndices(unpacked: seq<byte>, componentType: int, count: nat) {
    IndexWidth(componentType) == 0
    || (IndexWidth(componentType) == 2 && 2 * count <= |unpacked|)
    || (IndexWidth(componentType) == 4 && 4 * count <= |unpacked|)
  }

  /** Index `i` as a `uint32`: unsigned components are read as they are,
      a negative `int16` wraps around to `2^32` plus its value, an `int32`
      keeps its bits; for any other component type the index variable is
      never assigned and `unset` stands for its indeterminate value. */
  function IndexAt(unpacked: seq<byte>, componentType: int, i: nat, unset: u32): (r: u32)
    requires HoldsIndices(unpacked, componentType, i + 1)
  {
    var w := IndexWidth(componentType);
    if w == 0 then unset
    else if w == 2 then
      var v := FromLittleEndian(unpacked[2 * i..2 * i + 2]);
      assert v < 0x10000 by { assert Pow256(2) == 0x10000; }
      if componentType == SHORT && v >= 0x8000 then v + 0xFFFF_0000 else v
    else
      var v := FromLittleEndian(unpacked[4 * i..4 * i + 4]);
      assert v < TWO_32 by { Pow256Four(); }
      v
  }

  /** An unsigned 16-bit index stored in native order decodes to itself. */
  lemma {:induction false} UnsignedShortRoundTrip(v: nat)
    requires v < 0x10000
    ensures Pow256(2) == 0x10000
    ensures IndexAt(LittleEndian(v, 2), UNSIGNED_SHORT, 0, 0) == v
  {
    assert Pow256(2) == 0x10000;
    var bytes := LittleEndian(v, 2);
    assert bytes[0..2] == bytes;
  }

  /** A signed 16-bit index decodes to its value modulo `2^32`: non-negative
      values unchanged, negative ones sign-extended. */
  lemma {:induction false} ShortSignExtends(s: int)
    requires -0x8000 <= s < 0x8000
    ensures Pow256(2) == 0x10000
    ensures IndexAt(LittleEndian(s % 0x10000, 2), SHORT, 0, 0) == s % TWO_32
  {
    assert Pow256(2) == 0x10000;
    var v := s % 0x10000;
    if s >= 0 {
      assert v == s && s % TWO_32 == s;
    } else {
      assert v == s + 0x10000 && s % TWO_32 == s + TWO_32;
    }
    var bytes := LittleEndian(v, 2);
    assert bytes[0..2] == bytes;
    assert FromLittleEndian(bytes) == v;
  }

  /** A 32-bit index, signed or unsigned, keeps its bits. */
  lemma {:induction false} IntRoundTrip(v: nat, componentType: int)
    requires v < TWO_32 && (componentType == INT || componentType == UNSIGNED_INT)
    ensures Pow256(4) == TWO_32
    ensures IndexAt(LittleEndian(v, 4), componentType, 0, 0) == v
  {
    Pow256Four();
    var bytes := LittleEndian(v, 4);
    assert bytes[0..4] == bytes;
  }

  /** All `count` decoded indices, in order. */
  function Decoded(unpacked: seq<byte>, componentType: int, count: nat, unset: u32): (r: seq<u32>)
    requires HoldsIndices(unpacked, componentType, count)
    ensures |r| == count
  {
    seq(count, i requires 0 <= i < count => IndexAt(unpacked, componentType, i, unset))
  }

  /** The sequence with the second and third index of the first `n`
      complete triangles swapped. */
  function FlippedPrefix(s: seq<u32>, n: nat): (r: seq<u32>)
    requires 3 * n <= |s|
    ensures |r| == |s|
  {
    seq(|s|, k requires 0 <= k < |s| =>
      if k < 3 * n && k % 3 == 1 then s[k + 1]
      else if k < 3 * n && k % 3 == 2 then s[k - 1]
      else s[k])
  }

  /** Every complete triangle wound the other way; a trailing partial
      triangle is left alone. */
  function Flipped(s: seq<u32>): (r: seq<u32>)
    ensures |r| == |s|
  {
    FlippedPrefix(s, |s| / 3)
  }

  /** Position `r` of triangle `q`. */
  lemma {:induction false} DivModThree(q: nat, r: nat)
    requires r < 3
    ensures (3 * q + r) % 3 == r && (3 * q + r) / 3 == q
  {
  }

  /** Each triangle keeps its first corner and swaps the other two. */
  lemma {:induction false} FlippedTriangle(s: seq<u32>, t: nat)
    requires 3 * t + 2 < |s|
    ensures Flipped(s)[3 * t] == s[3 * t]
    ensures Flipped(s)[3 * t + 1] == s[3 * t + 2] && Flipped(s)[3 * t + 2] == s[3 * t + 1]
  {
    var n := |s| / 3;
    DivModThree(n, |s| % 3);
    assert t < n;
    DivModThree(t, 0);
    DivModThree(t, 1);
    DivModThree(t, 2);
  }

  /** Flipping twice gives the original indices back. */
  lemma {:induction false} FlippedInvolution(s: seq<u32>)
    ensures Flipped(Flipped(s)) == s
  {
    var f := Flipped(s);
    var n := |s| / 3;
    DivModThree(n, |s| % 3);
    forall k | 0 <= k < |s|
      ensures Flipped(f)[k] == s[k]
    {
      var q, r := k / 3, k % 3;
      DivModThree(q, r);
      if k < 3 * n && r == 1 {
        DivModThree(q, 2);
        assert f[k + 1] == s[k];
      } else if k < 3 * n && r == 2 {
        DivModThree(q, 1);
        assert f[k - 1] == s[k];
      }
    }
  }

  /** The flip loop of `_extract_gltf_indices`: triangle by triangle, the
      second and third index change places. */
  method FlipTriangles(indices: seq<u32>) returns (r: seq<u32>)
    ensures r == Flipped(indices)
  {
    r := indices;
    var i := 0;
    while i < |r| / 3
      invariant 0 <= i <= |indices| / 3 && |r| == |indices|
      invariant r == FlippedPrefix(indices, i)
    {
      r := r[i * 3 + 1 := r[i * 3 + 2]][i * 3 + 2 := r[i * 3 + 1]];
      assert r == FlippedPrefix(indices, i + 1);
      i := i + 1;
    }
  }

  /** `_extract_gltf_indices`: the index accessor is unpacked, `count`
      indices are decoded and appended to what `indices` already holds, and
      then every complete triangle of the whole list is flipped. A component
      type the decoder does not handle still appends one (indeterminate)
      index per element. */
  method ExtractIndices(data: seq<byte>, start: nat, byteStride: nat, componentType: int,
                        components: nat, count: nat, indices: seq<u32>, unset: u32)
    returns (r: seq<u32>)
    requires ComponentSize(componentType).Some? && components >= 1
    requires InBuffer(|data|, start, Stride(byteStride, Times(ComponentSize(componentType).value, components)),
                      Times(ComponentSize(componentType).value, components), count)
    ensures r == Flipped(indices + Decoded(Unpacked(data, start, byteStride, componentType, components, count),
                                           componentType, count, unset))
  {
    var elementSize := Times(ComponentSize(componentType).value, components);
    var buffer := UnpackBuffer(data, start, byteStride, elementSize, count);
    var unpacked := buffer[..];
    assert unpacked == Unpacked(data, start, byteStride, componentType, components, count);
    r := indices;
    var i := 0;
    while i < count
      invariant 0 <= i <= count
      invariant r == indices + Decoded(unpacked, componentType, count, unset)[..i]
    {
      var index := IndexAt(unpacked, componentType, i, unset);
      r := r + [index];
      i := i + 1;
    }
    r := FlipTriangles(r);
  }

  /** The unpacked bytes of an accessor with `count` elements; with at
      least one component per element they hold every index the decoder
      reads. */
  function Unpacked(data: seq<byte>, start: nat, byteStride: nat, componentType: int,
                    components: nat, count: nat): (r: seq<byte>)
    requires ComponentSize(componentType).Some?
    requires InBuffer(|data|, start, Stride(byteStride, Times(ComponentSize(componentType).value, components)),
                      Times(ComponentSize(componentType).value, components), count)
    ensures components >= 1 ==> HoldsIndices(r, componentType, count)
  {
    var size := ComponentSize(componentType).value;
    var elementSize := Times(size, components);
    GatheredLength(data, start, Stride(byteStride, elementSize), elementSize, count);
    ScaledUp(size, components, count);
    Gathered(data, start, Stride(byteStride, elementSize), elementSize, count)
  }

  /** `_calculate_gltf_mesh_name`: the glTF mesh name, with `_sub_<i>`
      appended when the mesh has more than one primitive. */
  function MeshName(meshName: string, primitiveCount: nat, primitiveIndex: int): (r: string)
    ensures |meshName| <= |r| && r[..|meshName|] == meshName
    ensures r == meshName <==> primitiveCount <= 1
  {
    if primitiveCount > 1 then meshName + "_sub_" + IntToString(primitiveIndex) else meshName
  }

  /** The primitives of one multi-primitive mesh get distinct mesh names, so
      their mesh files do not overwrite each other. */
  lemma {:induction false} MeshNamesDistinct(meshName: string, primitiveCount: nat, i: int, j: int)
    requires primitiveCount > 1 && i != j
    ensures MeshName(meshName, primitiveCount, i) != MeshName(meshName, primitiveCount, j)
  {
    var a, b := MeshName(meshName, primitiveCount, i), MeshName(meshName, primitiveCount, j);
    var n := |meshName| + 5;
    if a == b {
      assert a[n..] == IntToString(i) && b[n..] == IntToString(j);
      IntToStringInjective(i, j);
    }
  }

  lemma {:induction false} IntToStringInjective(a: int, b: int)
    ensures IntToString(a) == IntToString(b) ==> a == b
  {
    if IntToString(a) == IntToString(b) {
      if a < 0 && b < 0 {
        assert IntToString(a)[1..] == NatToString(-a) && IntToString(b)[1..] == NatToString(-b);
        NatToStringInjective(-a, -b);
      } else if a >= 0 && b >= 0 {
        NatToStringInjective(a, b);
      }
    }
  }
}
