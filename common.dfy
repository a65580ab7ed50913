/** Values shared by every part of the renderer model: optional values, bytes,
    content-hash ids, symbolic matrices and vectors, and decimal formatting. */
module Common {

  datatype Option<T> = None | Some(value: T)

  /** An 8-bit unsigned value (`uint8`, one byte of a buffer or a file). */
  type byte = x: int | 0 <= x < 256

  /** A 64-bit content hash used as a cache key (`uint64`). */
  type Id = nat

  const TWO_32: int := 0x1_0000_0000

  /** A 3-component vector. Coordinates are exact reals: the model never depends
      on floating-point rounding. */
  datatype Vec3 = Vec3(x: real, y: real, z: real) {
    function Plus(o: Vec3): Vec3 { Vec3(x + o.x, y + o.y, z + o.z) }
    function Minus(o: Vec3): Vec3 { Vec3(x - o.x, y - o.y, z - o.z) }
  }

  /** A 4x4 matrix kept symbolic: the model records how a matrix was made,
      never its entries. */
  datatype Matrix =
    | Identity
    | Opaque(tag: int)
    | Product(left: Matrix, right: Matrix)
    | Perspective(halfFov: real, aspect: real, clip: real)
    | LookFrom(position: Vec3, heading: Vec3)

  /** An RGBA colour; only the alpha channel is ever inspected. */
  datatype Color = Color(r: real, g: real, b: real, a: real)

  /** `palette::clear`: fully transparent. */
  const CLEAR: Color := Color(0.0, 0.0, 0.0, 0.0)

  function Digit(d: nat): (c: char)
    requires d < 10
    ensures '0' <= c <= '9'
    ensures c as int - '0' as int == d
  {
    ('0' as int + d) as char
  }

  /** Decimal text of a natural number, as `fmt` and `itoa(…, 10)` print it. */
  function NatToString(n: nat): (s: string)
    ensures |s| >= 1
    ensures forall i :: 0 <= i < |s| ==> '0' <= s[i] <= '9'
    decreases n
  {
    if n < 10 then [Digit(n)] else NatToString(n / 10) + [Digit(n % 10)]
  }

  /** Distinct numbers print differently. */
  lemma {:induction false} NatToStringInjective(a: nat, b: nat)
    ensures NatToString(a) == NatToString(b) ==> a == b
    decreases a
  {
    if a >= 10 && b >= 10 {
      var sa, sb := NatToString(a / 10), NatToString(b / 10);
      if NatToString(a) == NatToString(b) {
        assert |sa| == |sb|;
        assert sa == NatToString(a)[..|sa|] == NatToString(b)[..|sb|] == sb;
        assert Digit(a % 10) == NatToString(a)[|sa|] == NatToString(b)[|sb|] == Digit(b % 10);
        NatToStringInjective(a / 10, b / 10);
      }
    } else if a >= 10 || b >= 10 {
      assert |NatToString(a)| != |NatToString(b)|;
    }
  }

  /** Decimal text of a signed integer: a leading '-' for negative values. */
  function IntToString(i: int): (s: string)
    ensures |s| >= 1
    ensures (i < 0) == (s[0] == '-')
  {
    if i < 0 then "-" + NatToString(-i) else NatToString(i)
  }

  function HexDigit(d: nat): (c: char)
    requires d < 16
    ensures d < 10 ==> '0' <= c <= '9'
    ensures 10 <= d ==> 'a' <= c <= 'f'
  {
    if d < 10 then Digit(d) else ('a' as int + d - 10) as char
  }

  /** Lower-case hexadecimal digits of a natural number, no leading zeros. */
  function HexDigits(n: nat): (s: string)
    ensures |s| >= 1
    decreases n
  {
    if n < 16 then [HexDigit(n)] else HexDigits(n / 16) + [HexDigit(n % 16)]
  }

  /** `fmt("{:#x}", n)`: the hexadecimal digits behind a `0x` prefix. */
  function HexString(n: nat): (s: string)
    ensures StartsWith(s, "0x")
  {
    "0x" + HexDigits(n)
  }

  lemma {:induction false} HexDigitInjective(a: nat, b: nat)
    requires a < 16 && b < 16
    ensures HexDigit(a) == HexDigit(b) ==> a == b
  {
    if a < 10 && b < 10 {
      assert Digit(a) as int - '0' as int == a;
    }
  }

  /** Distinct hashes give distinct names. */
  lemma {:induction false} HexStringInjective(a: nat, b: nat)
    ensures HexString(a) == HexString(b) ==> a == b
    decreases a
  {
    if HexString(a) == HexString(b) {
      assert HexDigits(a) == HexString(a)[2..] == HexString(b)[2..] == HexDigits(b);
      HexDigitsInjective(a, b);
    }
  }

  lemma {:induction false} HexDigitsInjective(a: nat, b: nat)
    requires HexDigits(a) == HexDigits(b)
    ensures a == b
    decreases a
  {
    var da, db := HexDigits(a), HexDigits(b);
    if a >= 16 && b >= 16 {
      var sa, sb := HexDigits(a / 16), HexDigits(b / 16);
      assert |sa| == |sb|;
      assert sa == da[..|sa|] == db[..|sb|] == sb;
      assert HexDigit(a % 16) == da[|sa|] == db[|sb|] == HexDigit(b % 16);
      HexDigitInjective(a % 16, b % 16);
      HexDigitsInjective(a / 16, b / 16);
    } else if a < 16 && b < 16 {
      assert da[0] == db[0];
      HexDigitInjective(a, b);
    }
  }

  /** `0, 1, …, n - 1`: the index list of a mesh whose vertices are not shared. */
  function Iota(n: nat): (r: seq<nat>)
    ensures |r| == n
  {
    seq(n, i requires 0 <= i < n => i)
  }

  /** A sequence holding its own positions is `Iota` of its length. */
  lemma {:induction false} IotaOf(s: seq<nat>)
    requires forall k :: 0 <= k < |s| ==> s[k] == k
    ensures s == Iota(|s|)
  {
  }

  predicate StartsWith(s: string, prefix: string) {
    |prefix| <= |s| && s[..|prefix|] == prefix
  }

  function Max(a: int, b: int): int { if a < b then b else a }
  function Min(a: int, b: int): int { if a < b then a else b }

  function Pow2(k: nat): (p: nat)
    ensures p >= 1
  {
    if k == 0 then 1 else 2 * Pow2(k - 1)
  }

  function Pow4(k: nat): (p: nat)
    ensures p >= 1
  {
    if k == 0 then 1 else 4 * Pow4(k - 1)
  }

  /** Elements of `s` that satisfy `keep`, in their original order. */
  function Filter<T>(s: seq<T>, keep: T -> bool): (r: seq<T>)
    ensures |r| <= |s|
    ensures forall x :: x in r ==> x in s && keep(x)
    ensures forall x :: x in s && keep(x) ==> x in r
  {
    if s == [] then []
    else (if keep(s[0]) then [s[0]] else []) + Filter(s[1..], keep)
  }

  lemma {:induction false} FilterAppend<T>(s: seq<T>, x: T, keep: T -> bool)
    ensures Filter(s + [x], keep) == Filter(s, keep) + (if keep(x) then [x] else [])
  {
    if s == [] {
      assert s + [x] == [x];
    } else {
      assert (s + [x])[1..] == s[1..] + [x];
      FilterAppend(s[1..], x, keep);
    }
  }

  lemma {:induction false} FilterIdempotent<T>(s: seq<T>, keep: T -> bool)
    ensures Filter(Filter(s, keep), keep) == Filter(s, keep)
  {
    if s != [] {
      FilterIdempotent(s[1..], keep);
      var t := Filter(s[1..], keep);
      if keep(s[0]) {
        assert Filter(s, keep) == [s[0]] + t;
        assert ([s[0]] + t)[1..] == t;
        assert Filter([s[0]] + t, keep) == [s[0]] + Filter(t, keep);
      } else {
        assert Filter(s, keep) == [] + t == t;
      }
    }
  }

  /** Filtering drops nothing exactly when every element is kept. */
  lemma {:induction false} FilterKeepsAll<T>(s: seq<T>, keep: T -> bool)
    ensures (forall i :: 0 <= i < |s| ==> keep(s[i])) ==> Filter(s, keep) == s
    ensures |Filter(s, keep)| == |s| ==> forall i :: 0 <= i < |s| ==> keep(s[i])
  {
    if s != [] {
      FilterKeepsAll(s[1..], keep);
      assert forall i :: 0 <= i < |s[1..]| ==> s[1..][i] == s[i + 1];
      if keep(s[0]) {
        assert s == [s[0]] + s[1..];
      } else {
        assert |Filter(s, keep)| == |Filter(s[1..], keep)| <= |s[1..]| < |s|;
      }
    }
  }

  /** `vector::remove_value`: the first occurrence of `x` goes, the rest keep
      their order. */
  function RemoveFirst<T(==)>(s: seq<T>, x: T): (r: seq<T>)
    ensures x in s ==> |r| == |s| - 1 && multiset(r) == multiset(s) - multiset{x}
    ensures x !in s ==> r == s
    ensures forall y :: y in r ==> y in s
    decreases |s|
  {
    if s == [] then []
    else if s[0] == x then assert s == [s[0]] + s[1..]; s[1..]
    else assert s == [s[0]] + s[1..]; [s[0]] + RemoveFirst(s[1..], x)
  }

  /** `256^n`: the number of values an `n`-byte unsigned integer can hold. */
  function Pow256(n: nat): (p: nat)
    ensures p >= 1
  {
    if n == 0 then 1 else 256 * Pow256(n - 1)
  }

  /** Four bytes hold exactly the 32-bit values. */
  lemma {:induction false} Pow256Four()
    ensures Pow256(4) == TWO_32
  {
    assert Pow256(2) == 65536;
  }

  /** The unsigned integer whose native (little-endian, least significant byte
      first) representation is `bs`. */
  function FromLittleEndian(bs: seq<byte>): (v: nat)
    ensures v < Pow256(|bs|)
  {
    if bs == [] then 0 else bs[0] + 256 * FromLittleEndian(bs[1..])
  }

  /** The `width` bytes of `v` in native (little-endian) order, as `memcpy`
      copies an unsigned integer of that width. */
  function LittleEndian(v: nat, width: nat): (r: seq<byte>)
    requires v < Pow256(width)
    ensures |r| == width
    ensures FromLittleEndian(r) == v
  {
    if width == 0 then [] else [v % 256] + LittleEndian(v / 256, width - 1)
  }

  /** Every byte string is the representation of the value it encodes. */
  lemma {:induction false} LittleEndianOf(bs: seq<byte>)
    ensures LittleEndian(FromLittleEndian(bs), |bs|) == bs
  {
    if bs != [] {
      LittleEndianOf(bs[1..]);
      ByteSplit(bs[0], FromLittleEndian(bs[1..]));
    }
  }

  /** The low byte and the rest of `b + 256 * rest`. */
  lemma {:induction false} ByteSplit(b: byte, rest: nat)
    ensures (b + 256 * rest) % 256 == b && (b + 256 * rest) / 256 == rest
  {
  }
}
