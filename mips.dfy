/** `RenderScene::generate_mips`: a mip chain built by diverging an image into
    one name per level, blitting each level from the one above it, and
    converging the final names back into one image. */
module Mips {
  import opened Common
  import opened RenderGraph

  /** `fmt("{}_mip{}", image, level)`. */
  function MipName(image: string, level: nat): string
  {
    image + "_mip" + NatToString(level)
  }

  /** The name under which level `level` holds its final contents: level 0 is
      never written, so its diverged name stands; every other level gets the
      "+" name its blit pass hands on. */
  function Latest(image: string, level: nat): string
  {
    if level == 0 then MipName(image, 0) else MipName(image, level) + "+"
  }

  /** `diverge_image(image, {base_level = level, level_count = 1}, name)`. */
  datatype Divergence = Divergence(level: nat, name: string)

  datatype MipChain = MipChain(
    divergences: seq<Divergence>,
    blits: seq<Pass>,
    convergeInputs: seq<string>,
    output: string)

  /** The blit pass for `level`, which reads the level above under its final
      name and writes this level, handing it on under its "+" name. */
  function BlitPass(image: string, level: nat): Pass
    requires level >= 1
  {
    Pass(MipName(image, level) + "_gen",
         [Use(Latest(image, level - 1), TransferRead),
          Produce(MipName(image, level), TransferWrite, Latest(image, level))])
  }

  predicate IsMipChain(c: MipChain, image: string, output: string, mipCount: nat)
  {
    && c.output == output
    && |c.divergences| == mipCount
    && (forall k :: 0 <= k < mipCount ==> c.divergences[k] == Divergence(k, MipName(image, k)))
    && |c.blits| == (if mipCount == 0 then 0 else mipCount - 1)
    && (forall p :: 0 <= p < |c.blits| ==> c.blits[p] == BlitPass(image, p + 1))
    && |c.convergeInputs| == mipCount
    && (forall k :: 0 <= k < mipCount ==> c.convergeInputs[k] == Latest(image, k))
  }

  /** `generate_mips`: one diverged view per level, one blit per level below
      the first, and the final names converged into `output`. */
  method GenerateMips(image: string, output: string, mipCount: nat) returns (c: MipChain)
    ensures IsMipChain(c, image, output, mipCount)
  {
    var divergences, divergedNames := DivergeLevels(image, mipCount);
    var blits := BlitLevels(image, mipCount);
    c := MipChain(divergences, blits, divergedNames, output);
  }

  /** The first loop of `generate_mips`: each level diverged under its own
      name, and the name it will end up under. */
  method DivergeLevels(image: string, mipCount: nat) returns (divergences: seq<Divergence>, divergedNames: seq<string>)
    ensures |divergences| == mipCount && |divergedNames| == mipCount
    ensures forall k :: 0 <= k < mipCount ==> divergences[k] == Divergence(k, MipName(image, k))
    ensures forall k :: 0 <= k < mipCount ==> divergedNames[k] == Latest(image, k)
  {
    divergences, divergedNames := [], [];
    var level := 0;
    while level < mipCount
      invariant 0 <= level <= mipCount
      invariant |divergences| == level && |divergedNames| == level
      invariant forall k :: 0 <= k < level ==> divergences[k] == Divergence(k, MipName(image, k))
      invariant forall k :: 0 <= k < level ==> divergedNames[k] == Latest(image, k)
    {
      var divName := image + "_mip" + NatToString(level);
      if level != 0 {
        divergedNames := divergedNames + [divName + "+"];
      } else {
        divergedNames := divergedNames + [divName];
      }
      divergences := divergences + [Divergence(level, divName)];
      level := level + 1;
    }
  }

  /** The second loop of `generate_mips`: one blit per level below the
      first. */
  method BlitLevels(image: string, mipCount: nat) returns (blits: seq<Pass>)
    ensures |blits| == (if mipCount == 0 then 0 else mipCount - 1)
    ensures forall p :: 0 <= p < |blits| ==> blits[p] == BlitPass(image, p + 1)
  {
    blits := [];
    var level := 1;
    while level < mipCount
      invariant 1 <= level
      invariant if mipCount == 0 then level == 1 else level <= mipCount
      invariant |blits| == level - 1
      invariant forall p :: 0 <= p < |blits| ==> blits[p] == BlitPass(image, p + 1)
    {
      var srcName := image + "_mip" + NatToString(level - 1) + (if level != 1 then "+" else "");
      var dstName := image + "_mip" + NatToString(level);
      var src := Resource(srcName, TransferRead, None);
      var dst := Resource(dstName, TransferWrite, Some(dstName + "+"));
      assert srcName == Latest(image, level - 1) by {
        if level == 1 {
          assert srcName == MipName(image, 0) + "";
        }
      }
      assert dstName == MipName(image, level);
      blits := blits + [Pass(image + "_mip" + NatToString(level) + "_gen", [src, dst])];
      level := level + 1;
    }
  }

  /** The dependency chain of a mip chain: the first blit reads the diverged
      level 0, every later blit reads exactly what the previous blit handed
      on, and the converge step gathers exactly the final name of every level. */
  lemma {:induction false} MipChainLinks(c: MipChain, image: string, output: string, mipCount: nat)
    requires IsMipChain(c, image, output, mipCount)
    ensures mipCount >= 2 ==> c.blits[0].resources[0].name == c.divergences[0].name
    ensures forall p :: 0 <= p < |c.blits| - 1 ==>
      c.blits[p + 1].resources[0].name == c.blits[p].resources[1].output.value
    ensures mipCount >= 1 ==> c.convergeInputs[0] == c.divergences[0].name
    ensures forall p :: 0 <= p < |c.blits| ==> c.convergeInputs[p + 1] == c.blits[p].resources[1].output.value
  {
  }

  /** Different levels never share a name, so no two blits or diverged views
      alias each other. */
  lemma {:induction false} MipNamesDistinct(image: string, a: nat, b: nat)
    requires a != b
    ensures MipName(image, a) != MipName(image, b)
    ensures Latest(image, a) != Latest(image, b)
  {
    var prefix := image + "_mip";
    var sa, sb := NatToString(a), NatToString(b);
    NatToStringInjective(a, b);
    assert MipName(image, a)[|prefix|..] == sa;
    assert MipName(image, b)[|prefix|..] == sb;
    if a != 0 && b != 0 {
      assert Latest(image, a)[..|Latest(image, a)| - 1] == MipName(image, a);
      assert Latest(image, b)[..|Latest(image, b)| - 1] == MipName(image, b);
    } else {
      var z := if a == 0 then b else a;
      assert |Latest(image, 0)| == |prefix| + 1;
      assert |Latest(image, z)| == |prefix| + |NatToString(z)| + 1;
    }
  }

  // ---------------------------------------------------------------------
  // Blit regions.

  /** `int32(extent)` for a `uint32` extent. */
  function Int32(v: nat): int
    requires v < TWO_32
  {
    if v < 0x8000_0000 then v else v - TWO_32
  }

  /** `max(int32(extent) >> level, 1)`: an arithmetic right shift is a floor
      division by a power of two. */
  function LevelExtent(extent: nat, level: nat): int
    requires extent < TWO_32
  {
    Max(Int32(extent) / Pow2(level), 1)
  }

  lemma {:induction false} MulAtLeast(d: int, m: int)
    requires d > 0
    ensures m >= 1 ==> d * m >= d
  {
    if m >= 1 {
      assert d * m == d * (m - 1) + d;
      assert d * (m - 1) >= 0;
    }
  }

  lemma {:induction false} DivUnique(v: int, d: int, q: int, r: int)
    requires d > 0 && v == d * q + r && 0 <= r < d
    ensures v / d == q
  {
    var q0, r0 := v / d, v % d;
    assert d * q0 + r0 == v;
    assert d * (q - q0) == r0 - r;
    MulAtLeast(d, q - q0);
    MulAtLeast(d, q0 - q);
    assert d * (q0 - q) == r - r0;
  }

  lemma {:induction false} HalveTwice(v: int, level: nat)
    ensures v / Pow2(level) / 2 == v / Pow2(level + 1)
  {
    var a := Pow2(level);
    var q, r := v / a, v % a;
    var q2, r2 := q / 2, q % 2;
    assert v == a * q + r;
    assert q == 2 * q2 + r2;
    assert v == (a * 2) * q2 + (a * r2 + r);
    assert 0 <= a * r2 + r < a * 2 by {
      assert a * r2 <= a * 1;
    }
    DivUnique(v, a * 2, q2, a * r2 + r);
  }

  datatype Extent3 = Extent3(width: nat, height: nat, depth: nat)
  datatype Offset3 = Offset3(x: int, y: int, z: int)

  /** The source and destination corners of the blit that generates `level`
      from `level - 1` of an image with the given base extent. */
  datatype Blit = Blit(srcLevel: nat, dstLevel: nat, srcCorner: Offset3, dstCorner: Offset3)

  function Halved(v: int): int
  {
    Max(v / 2, 1)
  }

  /** The blit region of a `_gen` pass: each destination extent is half the
      source one, rounded down, and never below one texel. */
  function BlitRegion(e: Extent3, level: nat): (b: Blit)
    requires level >= 1
    requires e.width < TWO_32 && e.height < TWO_32 && e.depth < TWO_32
    ensures b.srcLevel + 1 == b.dstLevel == level
    ensures b.srcCorner.x >= 1 && b.srcCorner.y >= 1 && b.srcCorner.z >= 1
    ensures b.dstCorner == Offset3(Halved(b.srcCorner.x), Halved(b.srcCorner.y), Halved(b.srcCorner.z))
  {
    HalveTwice(Int32(e.width), level - 1);
    HalveTwice(Int32(e.height), level - 1);
    HalveTwice(Int32(e.depth), level - 1);
    Blit(level - 1, level,
         Offset3(LevelExtent(e.width, level - 1), LevelExtent(e.height, level - 1), LevelExtent(e.depth, level - 1)),
         Offset3(LevelExtent(e.width, level), LevelExtent(e.height, level), LevelExtent(e.depth, level)))
  }
}
