/**
 * Shader binding table arithmetic: the aligned record size, the table size,
 * the byte image createSBT writes, and the strided device-address regions
 * trace hands to vkCmdTraceRaysKHR.
 */
module Sbt {
  import opened ShaderGroups
  import opened Arith

  /**
   * nvh::align_up: the smallest multiple of a that is at least x. (The library
   * computes it with a bit mask, which agrees with this for the power-of-two
   * alignments Vulkan reports.)
   */
  function AlignUp(x: nat, a: nat): (r: nat)
    requires a > 0
    ensures r % a == 0
    ensures x <= r < x + a
  {
    var q := (x + a - 1) / a;
    DivMulBounds(x + a - 1, a);
    q * a
  }

  /** (n / a) * a lies in (n - a, n] and is a multiple of a. */
  lemma DivMulBounds(n: nat, a: nat)
    requires a > 0
    ensures n - a < (n / a) * a <= n
    ensures ((n / a) * a) % a == 0
  {
    MulMod(n / a, a);
  }

  /** One byte of GPU memory. */
  type Byte = bv8

  /** m_sbtSize: one aligned record per group (any-hit shaders have no group of their own). */
  function SbtSize(c: Counts, groupSizeAligned: nat): nat
  {
    GroupCount(c) * groupSizeAligned
  }

  /** VkStridedDeviceAddressRegionKHR */
  datatype Region = Region(deviceAddress: nat, stride: nat, size: nat)

  datatype TraceRegions = TraceRegions(rayGen: Region, miss: Region, hit: Region, callable: Region)

  /**
   * The four regions trace builds from the SBT address and the aligned group
   * size. The hit region starts at the any-hit module offset, which as a
   * group index is the first hit group because any-hit shaders have no group.
   */
  function Regions(c: Counts, sbtAddress: nat, groupSize: nat): (r: TraceRegions)
    ensures r.rayGen.stride == r.miss.stride == r.hit.stride == groupSize
    ensures r.callable == Region(0, 0, 0)
  {
    TraceRegions(
      Region(sbtAddress + 0 * groupSize, groupSize, groupSize * c.rayGen),
      Region(sbtAddress + MissOffset(c) * groupSize, groupSize, groupSize * c.miss),
      Region(sbtAddress + AnyHitOffset(c) * groupSize, groupSize, groupSize * c.closestHit),
      Region(0, 0, 0))
  }

  /** Address a lies inside region rg. */
  predicate InRegion(rg: Region, a: nat)
  {
    rg.deviceAddress <= a < rg.deviceAddress + rg.size
  }

  /**
   * The three regions tile the table exactly: ray generation starts at the
   * table, each region ends where the next begins, and the hit region ends at
   * the end of the table.
   */
  lemma RegionsTileTable(c: Counts, sbtAddress: nat, groupSize: nat)
    ensures var r := Regions(c, sbtAddress, groupSize);
      && r.rayGen.deviceAddress == sbtAddress
      && r.miss.deviceAddress == r.rayGen.deviceAddress + r.rayGen.size
      && r.hit.deviceAddress == r.miss.deviceAddress + r.miss.size
      && r.hit.deviceAddress + r.hit.size == sbtAddress + SbtSize(c, groupSize)
  {
    var r := Regions(c, sbtAddress, groupSize);
    assert (c.rayGen + c.miss) * groupSize == c.rayGen * groupSize + c.miss * groupSize;
    assert GroupCount(c) * groupSize == (c.rayGen + c.miss) * groupSize + c.closestHit * groupSize;
  }

  /**
   * The record of group g, at sbtAddress + g * groupSize, falls in the region
   * whose kind matches the group: ray generation groups in the ray generation
   * region, miss groups in the miss region, triangles hit groups in the hit
   * region, and in no other region.
   */
  lemma GroupRecordInMatchingRegion(c: Counts, sbtAddress: nat, groupSize: nat, g: nat)
    requires groupSize > 0
    requires g < GroupCount(c)
    ensures var r := Regions(c, sbtAddress, groupSize);
      var a := sbtAddress + g * groupSize;
      && (InRegion(r.rayGen, a) <==> g < c.rayGen)
      && (InRegion(r.miss, a) <==> c.rayGen <= g < c.rayGen + c.miss)
      && (InRegion(r.hit, a) <==> GroupAt(c, g).groupType == TrianglesHitGroup)
      && !InRegion(r.callable, a)
  {
    var r := Regions(c, sbtAddress, groupSize);
    var a := sbtAddress + g * groupSize;
    MulStrict(g, c.rayGen, groupSize);
    MulStrict(g, c.rayGen + c.miss, groupSize);
    MulStrict(g, GroupCount(c), groupSize);
    assert (c.rayGen + c.miss) * groupSize == c.rayGen * groupSize + c.miss * groupSize;
    assert GroupCount(c) * groupSize == (c.rayGen + c.miss) * groupSize + c.closestHit * groupSize;
  }

  /**
   * With a single ray generation shader, as the renderer configures it, the
   * ray generation region's size equals its stride, as vkCmdTraceRaysKHR
   * requires of that region.
   */
  lemma RayGenSizeIsStride(c: Counts, sbtAddress: nat, groupSize: nat)
    requires groupSize > 0
    ensures var r := Regions(c, sbtAddress, groupSize);
      r.rayGen.size == r.rayGen.stride <==> c.rayGen == 1
  {
    MulStrict(c.rayGen, 1, groupSize);
    MulStrict(1, c.rayGen, groupSize);
  }

  /**
   * When the table address is a multiple of the base alignment, every region
   * starts on a multiple of it, because the aligned group size is one.
   */
  lemma RegionsStartAligned(c: Counts, sbtAddress: nat, handleSize: nat, baseAlignment: nat)
    requires baseAlignment > 0
    requires sbtAddress % baseAlignment == 0
    ensures var r := Regions(c, sbtAddress, AlignUp(handleSize, baseAlignment));
      && r.rayGen.deviceAddress % baseAlignment == 0
      && r.miss.deviceAddress % baseAlignment == 0
      && r.hit.deviceAddress % baseAlignment == 0
  {
    var gs := AlignUp(handleSize, baseAlignment);
    var m := gs / baseAlignment;
    assert gs == m * baseAlignment;
    var q := sbtAddress / baseAlignment;
    assert sbtAddress == q * baseAlignment;
    forall k: nat ensures (sbtAddress + k * gs) % baseAlignment == 0 {
      assert k * gs == (k * m) * baseAlignment;
      assert sbtAddress + k * gs == (q + k * m) * baseAlignment;
      MulMod(q + k * m, baseAlignment);
    }
  }

  /**
   * The byte offset of record g when records are size bytes apart, as the
   * copy loop reaches it by advancing a pointer size bytes per group.
   */
  function Slot(g: nat, size: nat): nat
  {
    if g == 0 then 0 else Slot(g - 1, size) + size
  }

  lemma {:induction false} SlotIsProduct(g: nat, size: nat)
    ensures Slot(g, size) == g * size
  {
    if g > 0 {
      SlotIsProduct(g - 1, size);
      MulSucc(g - 1, size);
    }
  }

  /** A later record starts at least one record after an earlier one. */
  lemma {:induction false} SlotAfter(g: nat, m: nat, size: nat)
    requires g < m
    ensures Slot(g, size) + size <= Slot(m, size)
    decreases m
  {
    if g < m - 1 {
      SlotAfter(g, m - 1, size);
    }
  }

  /** Every memcpy of the first n groups stays inside the mapped table. */
  predicate CopiesFit(bufSize: nat, storageSize: nat, handleSize: nat, step: nat, n: nat)
  {
    Slot(n, handleSize) <= storageSize && (n > 0 ==> Slot(n - 1, step) + handleSize <= bufSize)
  }

  lemma CopiesFitPrefix(bufSize: nat, storageSize: nat, handleSize: nat, step: nat, n: nat, m: nat)
    requires m <= n
    requires CopiesFit(bufSize, storageSize, handleSize, step, n)
    ensures CopiesFit(bufSize, storageSize, handleSize, step, m)
  {
    if m < n {
      SlotAfter(m, n, handleSize);
      if m > 0 {
        SlotAfter(m - 1, n - 1, step);
      }
    }
  }

  /**
   * Byte j of the mapped table after the first n iterations of createSBT's
   * copy loop. Iteration g copies group g's handle, the handleSize bytes at
   * offset g * handleSize of the handle storage, to offset g * step of the
   * table; where two copies overlap the later one wins.
   */
  function CopiedByte(buf: seq<Byte>, storage: seq<Byte>, handleSize: nat, step: nat, n: nat, j: nat): Byte
    requires CopiesFit(|buf|, |storage|, handleSize, step, n)
    requires j < |buf|
    decreases n
  {
    if n == 0 then buf[j]
    else
      CopiesFitPrefix(|buf|, |storage|, handleSize, step, n, n - 1);
      var dst := Slot(n - 1, step);
      if dst <= j < dst + handleSize then storage[Slot(n - 1, handleSize) + (j - dst)]
      else CopiedByte(buf, storage, handleSize, step, n - 1, j)
  }

  /**
   * When records do not overlap (handleSize <= step), after copying n groups
   * the handleSize bytes at offset g * step are exactly group g's handle.
   */
  lemma {:induction false} CopiedSlotHoldsHandle(buf: seq<Byte>, storage: seq<Byte>, handleSize: nat, step: nat,
                                                 n: nat, g: nat, k: nat)
    requires CopiesFit(|buf|, |storage|, handleSize, step, n)
    requires handleSize <= step
    requires g < n && k < handleSize
    ensures Slot(g, step) + k < |buf| && Slot(g, handleSize) + k < |storage|
    ensures CopiedByte(buf, storage, handleSize, step, n, Slot(g, step) + k) == storage[Slot(g, handleSize) + k]
    decreases n
  {
    SlotAfter(g, n, handleSize);
    if g < n - 1 {
      SlotAfter(g, n - 1, step);
      CopiesFitPrefix(|buf|, |storage|, handleSize, step, n, n - 1);
      CopiedSlotHoldsHandle(buf, storage, handleSize, step, n - 1, g, k);
    }
  }

  /**
   * A byte no copy reaches keeps its old value: in particular everything from
   * the end of the last record on.
   */
  lemma {:induction false} UncopiedByteUnchanged(buf: seq<Byte>, storage: seq<Byte>, handleSize: nat, step: nat,
                                                 n: nat, j: nat)
    requires CopiesFit(|buf|, |storage|, handleSize, step, n)
    requires j < |buf|
    requires forall g :: 0 <= g < n ==> !(Slot(g, step) <= j < Slot(g, step) + handleSize)
    ensures CopiedByte(buf, storage, handleSize, step, n, j) == buf[j]
    decreases n
  {
    if n > 0 {
      CopiesFitPrefix(|buf|, |storage|, handleSize, step, n, n - 1);
      UncopiedByteUnchanged(buf, storage, handleSize, step, n - 1, j);
    }
  }

  /** When 0 < handleSize <= baseAlignment, the aligned group size is the base alignment itself. */
  lemma AlignedSizeIsBase(handleSize: nat, baseAlignment: nat)
    requires 0 < handleSize <= baseAlignment
    ensures AlignUp(handleSize, baseAlignment) == baseAlignment
  {
    DivModUnique(handleSize + baseAlignment - 1, baseAlignment, 1, handleSize - 1);
  }

  /**
   * End to end: createSBT advances by the base alignment while trace strides
   * by the aligned group size. When 0 < handleSize <= baseAlignment the two
   * agree, so the record trace reads for group g (at g * AlignUp(handleSize,
   * baseAlignment)) holds group g's handle.
   */
  lemma TraceReadsCopiedHandles(c: Counts, buf: seq<Byte>, storage: seq<Byte>, handleSize: nat, baseAlignment: nat,
                                g: nat, k: nat)
    requires 0 < handleSize <= baseAlignment
    requires |buf| == SbtSize(c, AlignUp(handleSize, baseAlignment))
    requires |storage| == |buf|
    requires g < GroupCount(c) && k < handleSize
    ensures CopiesFit(|buf|, |storage|, handleSize, baseAlignment, GroupCount(c))
    ensures g * AlignUp(handleSize, baseAlignment) + k < |buf|
    ensures g * handleSize + k < |storage|
    ensures CopiedByte(buf, storage, handleSize, baseAlignment, GroupCount(c), g * AlignUp(handleSize, baseAlignment) + k)
            == storage[g * handleSize + k]
  {
    AlignedSizeIsBase(handleSize, baseAlignment);
    var n := GroupCount(c);
    assert Slot(n, handleSize) <= |storage| by {
      SlotIsProduct(n, handleSize);
      MulMono(handleSize, baseAlignment, n);
    }
    assert Slot(n - 1, baseAlignment) + handleSize <= |buf| by {
      SlotIsProduct(n - 1, baseAlignment);
      MulSucc(n - 1, baseAlignment);
    }
    CopiedSlotHoldsHandle(buf, storage, handleSize, baseAlignment, n, g, k);
    SlotIsProduct(g, baseAlignment);
    SlotIsProduct(g, handleSize);
  }
}
