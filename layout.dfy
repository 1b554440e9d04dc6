/**
 * The shared device allocation built by `Renderer::ensureBuffers`
 * (renderer.cpp): the block, logo and floor vertex buffers and the uniform
 * buffer are bound, in that order, into one allocation, each start offset
 * rounded up with `aligned` to what the device asks for that buffer.
 */
module Layout {
  import opened Vulkan
  import opened Utilities

  /** Bytes per mesh vertex: position, uv and normal, 3 + 2 + 3 floats. */
  const MESH_VERTEX_STRIDE: nat := 8 * FLOAT_SIZE

  /** `vertexCount * 8 * sizeof(float)`, the byte size of a mesh's vertex buffer. */
  function MeshByteCount(vertexCount: nat): nat
  {
    vertexCount * MESH_VERTEX_STRIDE
  }

  /** A byte range [offset, offset + length). */
  datatype Region = Region(offset: nat, length: nat) {
    function End(): nat {
      offset + length
    }

    predicate Within(lo: nat, hi: nat) {
      lo <= offset && End() <= hi
    }

    predicate DisjointFrom(other: Region) {
      End() <= other.offset || other.End() <= offset
    }
  }

  /** What vkGetBufferMemoryRequirements reports for the four buffers ensureBuffers creates. */
  datatype BufferRequirements = BufferRequirements(
    block: MemoryRequirements,
    logo: MemoryRequirements,
    floor: MemoryRequirements,
    uniform: MemoryRequirements)

  /** The offsets ensureBuffers computes and the size of the allocation it asks for. */
  datatype BufferLayout = BufferLayout(
    logoVertStartOffset: DeviceSize,
    floorVertStartOffset: DeviceSize,
    uniMemStartOffset: DeviceSize,
    allocationSize: DeviceSize)

  /** Vulkan reports every memory alignment as a power of two. */
  predicate AlignmentsArePowersOfTwo(r: BufferRequirements)
  {
    IsPowerOfTwo(r.logo.alignment) && IsPowerOfTwo(r.floor.alignment) && IsPowerOfTwo(r.uniform.alignment)
  }

  /** The sizes and alignment paddings together stay below 2^64, so that no uint64 sum wraps. */
  predicate FitsIn64(r: BufferRequirements)
  {
    r.block.size + r.logo.alignment + r.logo.size + r.floor.alignment + r.floor.size
      + r.uniform.alignment + r.uniform.size < U64_LIMIT
  }

  /** renderer.cpp: the three start offsets and the allocation size, in uint64 arithmetic. */
  function ComputeBufferLayout(r: BufferRequirements): BufferLayout
  {
    var logo := Aligned(Wrap64(0 + r.block.size), r.logo.alignment);
    var floor := Aligned(Wrap64(logo + r.logo.size), r.floor.alignment);
    var uni := Aligned(Wrap64(floor + r.floor.size), r.uniform.alignment);
    BufferLayout(logo, floor, uni, Wrap64(uni + r.uniform.size))
  }

  /** The range each buffer is bound to: at offset 0 and the three computed start offsets. */
  function BoundRegions(r: BufferRequirements, l: BufferLayout): seq<Region>
  {
    [Region(0, r.block.size), Region(l.logoVertStartOffset, r.logo.size),
     Region(l.floorVertStartOffset, r.floor.size), Region(l.uniMemStartOffset, r.uniform.size)]
  }

  /** The three memcpy's into the mapped range: block mesh, logo mesh, floor quad. */
  function VertexCopies(l: BufferLayout, blockBytes: nat, logoBytes: nat): seq<Region>
  {
    [Region(0, blockBytes), Region(l.logoVertStartOffset, logoBytes),
     Region(l.floorVertStartOffset, QuadVertByteSize())]
  }

  /** Every start offset is a multiple of its buffer's alignment, even if a uint64 sum wraps. */
  lemma BufferOffsetsAligned(r: BufferRequirements)
    requires AlignmentsArePowersOfTwo(r)
    ensures var l := ComputeBufferLayout(r);
            l.logoVertStartOffset % r.logo.alignment == 0
            && l.floorVertStartOffset % r.floor.alignment == 0
            && l.uniMemStartOffset % r.uniform.alignment == 0
  {
    var l := ComputeBufferLayout(r);
    assert l.logoVertStartOffset % r.logo.alignment == 0 by {
      AlignedIsMultiple(Wrap64(0 + r.block.size), r.logo.alignment);
    }
    assert l.floorVertStartOffset % r.floor.alignment == 0 by {
      AlignedIsMultiple(Wrap64(l.logoVertStartOffset + r.logo.size), r.floor.alignment);
    }
    assert l.uniMemStartOffset % r.uniform.alignment == 0 by {
      AlignedIsMultiple(Wrap64(l.floorVertStartOffset + r.floor.size), r.uniform.alignment);
    }
  }

  /** One step of ensureBuffers without overflow: the next offset is the first aligned offset at or after `end`. */
  lemma AlignStepBounds(previous: DeviceSize, size: DeviceSize, a: DeviceSize)
    requires IsPowerOfTwo(a) && previous + size + a - 1 < U64_LIMIT
    ensures var o := Aligned(Wrap64(previous + size), a);
            previous + size <= o < previous + size + a && o % a == 0
  {
    WrapSmall(previous + size);
    AlignedBounds(previous + size, a);
  }

  /**
   * Without overflow each start offset is the first offset, at or after the
   * end of the previous buffer, that is a multiple of its alignment; the
   * allocation ends with the uniform buffer.
   */
  lemma BufferLayoutTight(r: BufferRequirements)
    requires AlignmentsArePowersOfTwo(r) && FitsIn64(r)
    ensures var l := ComputeBufferLayout(r);
            r.block.size <= l.logoVertStartOffset < r.block.size + r.logo.alignment
            && l.logoVertStartOffset % r.logo.alignment == 0
            && l.logoVertStartOffset + r.logo.size <= l.floorVertStartOffset
            && l.floorVertStartOffset < l.logoVertStartOffset + r.logo.size + r.floor.alignment
            && l.floorVertStartOffset % r.floor.alignment == 0
            && l.floorVertStartOffset + r.floor.size <= l.uniMemStartOffset
            && l.uniMemStartOffset < l.floorVertStartOffset + r.floor.size + r.uniform.alignment
            && l.uniMemStartOffset % r.uniform.alignment == 0
            && l.allocationSize == l.uniMemStartOffset + r.uniform.size
  {
    LogoOffsetTight(r);
    FloorOffsetTight(r);
    UniformOffsetTight(r);
    AllocationEndsWithUniforms(r);
  }

  lemma LogoOffsetTight(r: BufferRequirements)
    requires AlignmentsArePowersOfTwo(r) && FitsIn64(r)
    ensures var logo := ComputeBufferLayout(r).logoVertStartOffset;
            r.block.size <= logo < r.block.size + r.logo.alignment && logo % r.logo.alignment == 0
  {
    AlignStepBounds(0, r.block.size, r.logo.alignment);
  }

  lemma FloorOffsetTight(r: BufferRequirements)
    requires AlignmentsArePowersOfTwo(r) && FitsIn64(r)
    ensures var l := ComputeBufferLayout(r);
            var end := l.logoVertStartOffset + r.logo.size;
            end <= l.floorVertStartOffset < end + r.floor.alignment
            && l.floorVertStartOffset % r.floor.alignment == 0
  {
    LogoOffsetTight(r);
    AlignStepBounds(ComputeBufferLayout(r).logoVertStartOffset, r.logo.size, r.floor.alignment);
  }

  lemma UniformOffsetTight(r: BufferRequirements)
    requires AlignmentsArePowersOfTwo(r) && FitsIn64(r)
    ensures var l := ComputeBufferLayout(r);
            var end := l.floorVertStartOffset + r.floor.size;
            end <= l.uniMemStartOffset < end + r.uniform.alignment
            && l.uniMemStartOffset % r.uniform.alignment == 0
  {
    LogoOffsetTight(r);
    FloorOffsetTight(r);
    AlignStepBounds(ComputeBufferLayout(r).floorVertStartOffset, r.floor.size, r.uniform.alignment);
  }

  lemma AllocationEndsWithUniforms(r: BufferRequirements)
    requires AlignmentsArePowersOfTwo(r) && FitsIn64(r)
    ensures var l := ComputeBufferLayout(r);
            l.allocationSize == l.uniMemStartOffset + r.uniform.size
  {
    LogoOffsetTight(r);
    FloorOffsetTight(r);
    UniformOffsetTight(r);
    var l := ComputeBufferLayout(r);
    WrapSmall(l.uniMemStartOffset + r.uniform.size);
  }

  /**
   * The four bound ranges follow one another without overlapping, each at an
   * offset that is a multiple of its alignment, and all lie inside the
   * allocation.
   */
  lemma BoundRegionsFitAllocation(r: BufferRequirements)
    requires AlignmentsArePowersOfTwo(r) && FitsIn64(r)
    ensures var l := ComputeBufferLayout(r);
            var b := BoundRegions(r, l);
            (forall i :: 0 <= i < |b| ==> b[i].Within(0, l.allocationSize))
            && (forall i, j :: 0 <= i < j < |b| ==> b[i].End() <= b[j].offset)
            && b[1].offset % r.logo.alignment == 0
            && b[2].offset % r.floor.alignment == 0
            && b[3].offset % r.uniform.alignment == 0
  {
    BufferLayoutTight(r);
    BufferOffsetsAligned(r);
  }

  /**
   * When each buffer is at least as large as requested, the three vertex
   * copies are disjoint and fall inside the mapped range [0, uniMemStartOffset).
   */
  lemma VertexCopiesInsideMapping(r: BufferRequirements, blockVertexCount: nat, logoVertexCount: nat)
    requires AlignmentsArePowersOfTwo(r) && FitsIn64(r)
    requires r.block.size >= MeshByteCount(blockVertexCount)
    requires r.logo.size >= MeshByteCount(logoVertexCount)
    requires r.floor.size >= QuadVertByteSize()
    ensures var l := ComputeBufferLayout(r);
            var c := VertexCopies(l, MeshByteCount(blockVertexCount), MeshByteCount(logoVertexCount));
            (forall i :: 0 <= i < |c| ==> c[i].Within(0, l.uniMemStartOffset))
            && (forall i, j :: 0 <= i < j < |c| ==> c[i].DisjointFrom(c[j]))
  {
    BufferLayoutTight(r);
  }
}
