/**
 * The dynamic uniform buffer of the item material (renderer.cpp): its two
 * blocks and their std140 layout, the per-frame slots addressed by dynamic
 * offsets, the bytes written into a slot, and the dirty counter that decides
 * when a slot is rewritten.
 *
 * Matrices and vectors are floating-point values computed elsewhere; here a
 * store is the list of floats a `memcpy` puts at a byte offset.
 */
module Uniforms {
  import opened Vulkan
  import opened Utilities
  import Cameras

  // ---------------------------------------------------------------------------
  // std140 packing (section 7.6.2.2 of the OpenGL 4.5 core profile specification)

  datatype GlslType = Float | Vec3 | Mat3 | Mat4

  /** Base alignment: 4 for a float; 16 for a vec3 and for the columns of a matrix. */
  function BaseAlignment(t: GlslType): nat
  {
    match t
    case Float => FLOAT_SIZE
    case _ => 4 * FLOAT_SIZE
  }

  /** Bytes a member occupies: a matrix is an array of columns, each padded to 16 bytes. */
  function Std140Size(t: GlslType): nat
  {
    match t
    case Float => FLOAT_SIZE
    case Vec3 => 3 * FLOAT_SIZE
    case Mat3 => 3 * (4 * FLOAT_SIZE)
    case Mat4 => 4 * (4 * FLOAT_SIZE)
  }

  /** The offset of each member when the block is laid out from byte `start`. */
  function Std140Offsets(members: seq<GlslType>, start: nat): (offsets: seq<nat>)
    ensures |offsets| == |members|
  {
    if members == [] then []
    else
      var o := RoundUp(start, BaseAlignment(members[0]));
      [o] + Std140Offsets(members[1..], o + Std140Size(members[0]))
  }

  /** The byte just past the last member. */
  function Std140End(members: seq<GlslType>, start: nat): nat
  {
    if members == [] then start
    else Std140End(members[1..], RoundUp(start, BaseAlignment(members[0])) + Std140Size(members[0]))
  }

  /** The vertex-stage block: mvp and model (mat4), modelNormal (mat3). */
  const VERTEX_BLOCK: seq<GlslType> := [Mat4, Mat4, Mat3]

  /**
   * The fragment-stage block: ECCameraPosition, ka, kd, ks, ECLightPosition,
   * att and color (vec3), then intensity and specularExp (float).
   */
  const FRAGMENT_BLOCK: seq<GlslType> := [Vec3, Vec3, Vec3, Vec3, Vec3, Vec3, Vec3, Float, Float]

  /** The byte counts renderer.cpp passes to `aligned` for the two blocks. */
  const VERT_UNI_BYTES: nat := 2 * 64 + 48
  const FRAG_UNI_BYTES: nat := 6 * 16 + 12 + 2 * 4

  /** Where buildDrawCallsForItems puts the vertex block's members. */
  const VERTEX_OFFSETS: seq<nat> := [0, 64, 128]

  /** The vertex block's std140 offsets are VERTEX_OFFSETS and it ends at byte 176. */
  lemma {:induction false} VertexBlockLayout()
    ensures Std140Offsets(VERTEX_BLOCK, 0) == VERTEX_OFFSETS
    ensures Std140End(VERTEX_BLOCK, 0) == VERT_UNI_BYTES == 176
  {
    RoundUpOfMultiple(0, 16);
    RoundUpOfMultiple(64, 16);
    RoundUpOfMultiple(128, 16);
    assert VERTEX_BLOCK[1..] == [Mat4, Mat3];
    assert VERTEX_BLOCK[2..] == [Mat3];
  }

  /** Where writeFragUni puts the fragment block's members. */
  const FRAGMENT_OFFSETS: seq<nat> := [0, 16, 32, 48, 64, 80, 96, 108, 112]

  /** The fragment block's std140 offsets are FRAGMENT_OFFSETS and it ends at byte 116. */
  lemma FragmentBlockLayout()
    ensures Std140Offsets(FRAGMENT_BLOCK, 0) == FRAGMENT_OFFSETS
    ensures Std140End(FRAGMENT_BLOCK, 0) == FRAG_UNI_BYTES == 116
  {
    FragmentBlockLayoutFrom(FRAGMENT_BLOCK, 0);
  }

  /** A block of the fragment block's member types laid out from a 16-aligned base, proved one member at a time from the last. */
  lemma {:induction false} FragmentBlockLayoutFrom(b: seq<GlslType>, base: nat)
    requires |b| == 9 && b[0] == b[1] == b[2] == b[3] == b[4] == b[5] == b[6] == Vec3 && b[7] == b[8] == Float
    requires base % 16 == 0
    ensures Std140Offsets(b, base) == [base, base + 16, base + 32, base + 48, base + 64, base + 80, base + 96, base + 108, base + 112]
    ensures Std140End(b, base) == base + 116
  {
    var e := base + 116;
    FragmentBlockTail(b, base);
    var o4: seq<nat> := [base + 64, base + 80, base + 96, base + 108, base + 112];
    Aligned16(base, 3);
    Vec3Member(b, 3, base + 44, base + 48, o4, e);
    var o3 := [base + 48] + o4;
    Aligned16(base, 2);
    Vec3Member(b, 2, base + 28, base + 32, o3, e);
    var o2 := [base + 32] + o3;
    Aligned16(base, 1);
    Vec3Member(b, 1, base + 12, base + 16, o2, e);
    var o1 := [base + 16] + o2;
    Vec3Member(b, 0, base, base, o1, e);
    assert b[0..] == b;
  }

  /** The last five members of FragmentBlockLayoutFrom's block, laid out after the fourth vec3. */
  lemma {:induction false} FragmentBlockTail(b: seq<GlslType>, base: nat)
    requires |b| == 9 && b[4] == b[5] == b[6] == Vec3 && b[7] == b[8] == Float
    requires base % 16 == 0
    ensures Std140Offsets(b[4..], base + 60) == [base + 64, base + 80, base + 96, base + 108, base + 112]
    ensures Std140End(b[4..], base + 60) == base + 116
  {
    var e := base + 116;
    assert b[9..] == [];
    var o9: seq<nat> := [];
    FloatMember(b, 8, base + 112, base + 112, o9, e);
    var o8 := [base + 112] + o9;
    FloatMember(b, 7, base + 108, base + 108, o8, e);
    var o7 := [base + 108] + o8;
    Aligned16(base, 6);
    Vec3Member(b, 6, base + 92, base + 96, o7, e);
    var o6 := [base + 96] + o7;
    Aligned16(base, 5);
    Vec3Member(b, 5, base + 76, base + 80, o6, e);
    var o5 := [base + 80] + o6;
    Aligned16(base, 4);
    Vec3Member(b, 4, base + 60, base + 64, o5, e);
  }

  lemma Aligned16(base: nat, j: nat)
    requires base % 16 == 0
    ensures (base + 16 * j) % 16 == 0
  {
    DivModUnique(base + 16 * j, 16, base / 16 + j, 0);
  }

  /** MemberLayout for a vec3 member: 16-aligned, 12 bytes. */
  lemma Vec3Member(b: seq<GlslType>, k: nat, from: nat, at: nat, rest: seq<nat>, end: nat)
    requires k < |b| && b[k] == Vec3 && at % 16 == 0 && from <= at < from + 16
    requires Std140Offsets(b[k + 1..], at + 12) == rest && Std140End(b[k + 1..], at + 12) == end
    ensures Std140Offsets(b[k..], from) == [at] + rest && Std140End(b[k..], from) == end
  {
    MemberLayout(b, k, from, at, rest, end);
  }

  /** MemberLayout for a float member: 4-aligned, 4 bytes. */
  lemma FloatMember(b: seq<GlslType>, k: nat, from: nat, at: nat, rest: seq<nat>, end: nat)
    requires k < |b| && b[k] == Float && at % 4 == 0 && from <= at < from + 4
    requires Std140Offsets(b[k + 1..], at + 4) == rest && Std140End(b[k + 1..], at + 4) == end
    ensures Std140Offsets(b[k..], from) == [at] + rest && Std140End(b[k..], from) == end
  {
    MemberLayout(b, k, from, at, rest, end);
  }

  /**
   * Member k of a block, laid out from `from`, is placed at `at` when `at` is
   * the first multiple of its base alignment at or after `from`; the members
   * after it follow from the end of its storage.
   */
  lemma MemberLayout(b: seq<GlslType>, k: nat, from: nat, at: nat, rest: seq<nat>, end: nat)
    requires k < |b| && at % BaseAlignment(b[k]) == 0 && from <= at < from + BaseAlignment(b[k])
    requires Std140Offsets(b[k + 1..], at + Std140Size(b[k])) == rest
    requires Std140End(b[k + 1..], at + Std140Size(b[k])) == end
    ensures Std140Offsets(b[k..], from) == [at] + rest && Std140End(b[k..], from) == end
  {
    var m := b[k..];
    assert m != [] && m[0] == b[k] && m[1..] == b[k + 1..];
    RoundUpUnique(from, BaseAlignment(b[k]), at);
  }

  // ---------------------------------------------------------------------------
  // Uniform sizes and frame slots

  /** renderer.cpp: `vertUniSize = aligned(2 * 64 + 48, uniformAlignment)`. */
  function VertUniSize(uniformAlignment: DeviceSize): DeviceSize
  {
    Aligned(VERT_UNI_BYTES, uniformAlignment)
  }

  /** renderer.cpp: `fragUniSize = aligned(6 * 16 + 12 + 2 * 4, uniformAlignment)`. */
  function FragUniSize(uniformAlignment: DeviceSize): DeviceSize
  {
    Aligned(FRAG_UNI_BYTES, uniformAlignment)
  }

  /**
   * For a power-of-two minUniformBufferOffsetAlignment, each uniform size is a
   * multiple of the alignment that holds its whole std140 block, with less
   * than one alignment of padding.
   */
  lemma UniformSizesHoldBlocks(ua: DeviceSize)
    requires IsPowerOfTwo(ua) && ua <= U64_LIMIT - VERT_UNI_BYTES
    ensures Std140End(VERTEX_BLOCK, 0) <= VertUniSize(ua) < VERT_UNI_BYTES + ua
    ensures Std140End(FRAGMENT_BLOCK, 0) <= FragUniSize(ua) < FRAG_UNI_BYTES + ua
    ensures VertUniSize(ua) % ua == 0 && FragUniSize(ua) % ua == 0
    ensures SlotSizesHold(ua, VertUniSize(ua), FragUniSize(ua))
  {
    VertexBlockLayout();
    FragmentBlockLayout();
    AlignedBounds(VERT_UNI_BYTES, ua);
    AlignedBounds(FRAG_UNI_BYTES, ua);
  }

  /** renderer.cpp: the uniform buffer's size, `(vertUniSize + fragUniSize) * concurrentFrameCount` in uint64. */
  function UniformBufferSize(vertUniSize: DeviceSize, fragUniSize: DeviceSize, frameCount: nat): DeviceSize
  {
    Wrap64(Wrap64(vertUniSize + fragUniSize) * frameCount)
  }

  /** renderer.cpp: `uint32_t frameUniOffset = currentFrame * (vertUniSize + fragUniSize)`. */
  function FrameUniOffset(currentFrame: nat, vertUniSize: DeviceSize, fragUniSize: DeviceSize): nat
  {
    Wrap32(Wrap64(currentFrame * Wrap64(vertUniSize + fragUniSize)))
  }

  /**
   * While the whole uniform buffer is addressable by a uint32 offset, frame
   * `currentFrame` gets the slot [currentFrame * (v + f), +(v + f)), which lies
   * inside the uniform buffer, after the slots of the earlier frames.
   */
  lemma FrameSlotInsideUniformBuffer(currentFrame: nat, frameCount: nat, v: DeviceSize, f: DeviceSize)
    requires currentFrame < frameCount
    requires (v + f) * frameCount < U32_LIMIT
    ensures FrameUniOffset(currentFrame, v, f) == currentFrame * (v + f)
    ensures UniformBufferSize(v, f, frameCount) == (v + f) * frameCount
    ensures FrameUniOffset(currentFrame, v, f) + (v + f) <= UniformBufferSize(v, f, frameCount)
  {
    var s: nat := v + f;
    MulMonotone(currentFrame + 1, frameCount, s);
    assert (currentFrame + 1) * s == currentFrame * s + s;
    assert Wrap64(s) == s;
    assert Wrap64(s * frameCount) == s * frameCount;
    assert Wrap64(currentFrame * s) == currentFrame * s;
  }

  /** Both uniform sizes are multiples of ua, so every dynamic offset is one, as vkCmdBindDescriptorSets requires. */
  lemma FrameUniOffsetAligned(currentFrame: nat, ua: DeviceSize, v: DeviceSize, f: DeviceSize)
    requires ua >= 1 && v % ua == 0 && f % ua == 0
    requires currentFrame * (v + f) < U32_LIMIT
    ensures FrameUniOffset(currentFrame, v, f) % ua == 0
  {
    var s: nat := v + f;
    if currentFrame == 0 {
      assert FrameUniOffset(currentFrame, v, f) == 0;
    } else {
      if s > 0 {
        MulAtLeast(s, currentFrame);
      }
      assert Wrap64(s) == s;
      var q := v / ua + f / ua;
      assert s == q * ua by {
        assert v == (v / ua) * ua && f == (f / ua) * ua;
      }
      assert currentFrame * s == (currentFrame * q) * ua by {
        assert currentFrame * (q * ua) == (currentFrame * q) * ua;
      }
      assert Wrap64(currentFrame * s) == currentFrame * s;
      assert FrameUniOffset(currentFrame, v, f) == currentFrame * s;
      DivModUnique(currentFrame * s, ua, currentFrame * q, 0);
    }
  }

  // ---------------------------------------------------------------------------
  // The bytes written into a frame's slot

  /** A memcpy of `floats` to byte `offset` of the mapped slot. */
  datatype Store = Store(offset: nat, floats: seq<real>) {
    function End(): nat {
      offset + |floats| * FLOAT_SIZE
    }
  }

  /** The components of a 3-vector, as memcpy'd from a float[3]. */
  function Components(v: Cameras.Vec3): seq<real>
  {
    [v.x, v.y, v.z]
  }

  /**
   * renderer.cpp, buildDrawCallsForItems: the view-projection and model
   * matrices at 0 and 64, then the three columns of the normal matrix, each
   * 12 bytes, at 128, 144 and 160.
   */
  function VertexStores(vp: seq<real>, model: seq<real>, modelNormal: seq<real>): seq<Store>
    requires |vp| == 16 && |model| == 16 && |modelNormal| == 9
  {
    [Store(0, vp), Store(64, model),
     Store(128, modelNormal[0..3]), Store(128 + 16, modelNormal[3..6]), Store(128 + 32, modelNormal[6..9])]
  }

  /**
   * The stores of the vertex block: mvp and model at the offsets of
   * VERTEX_OFFSETS (its std140 offsets, by VertexBlockLayout) with a mat4's
   * size, and column c of modelNormal, 3 floats, at the mat3's offset plus 16c.
   */
  predicate FollowsVertexBlock(stores: seq<Store>)
  {
    |stores| == 5
    && stores[0].offset == VERTEX_OFFSETS[0] && |stores[0].floats| * FLOAT_SIZE == Std140Size(VERTEX_BLOCK[0])
    && stores[1].offset == VERTEX_OFFSETS[1] && |stores[1].floats| * FLOAT_SIZE == Std140Size(VERTEX_BLOCK[1])
    && forall c :: 0 <= c < 3 ==> stores[2 + c].offset == VERTEX_OFFSETS[2] + 16 * c && |stores[2 + c].floats| == 3
  }

  /**
   * The vertex stores follow the std140 layout of the vertex block, one after
   * the other, and end at byte 172, inside the block.
   */
  lemma VertexStoresFollowStd140(vp: seq<real>, model: seq<real>, modelNormal: seq<real>)
    requires |vp| == 16 && |model| == 16 && |modelNormal| == 9
    ensures var s := VertexStores(vp, model, modelNormal);
            FollowsVertexBlock(s)
            && (forall i :: 0 <= i < |s| - 1 ==> s[i].End() <= s[i + 1].offset)
            && s[4].End() == 172 <= VERT_UNI_BYTES
  {
  }

  /**
   * The stores of the fragment block, from `base`, at the offsets of
   * FRAGMENT_OFFSETS (its std140 offsets, by FragmentBlockLayout) and with
   * each member's std140 size.
   */
  predicate FollowsFragmentBlock(stores: seq<Store>, base: nat)
  {
    |stores| == |FRAGMENT_BLOCK|
    && forall i :: 0 <= i < |stores| ==>
         stores[i].offset == base + FRAGMENT_OFFSETS[i] && |stores[i].floats| * FLOAT_SIZE == Std140Size(FRAGMENT_BLOCK[i])
  }

  /**
   * renderer.cpp `writeFragUni`: a cursor moves 16 bytes past each vec3 but
   * only 12 past the last one, because the two floats that follow are aligned
   * to 4. Its stores are exactly the fragment block's std140 layout, with the
   * eye and light positions and the fixed material and light parameters.
   */
  method WriteFragUni(base: nat, eyePos: Cameras.Vec3, lightPos: Cameras.Vec3) returns (stores: seq<Store>)
    ensures FollowsFragmentBlock(stores, base)
    ensures stores[|stores| - 1].End() == base + FRAG_UNI_BYTES
    ensures stores[0].floats == Components(eyePos) && stores[4].floats == Components(lightPos)
    ensures stores[1].floats == [0.05, 0.05, 0.05] && stores[2].floats == [0.7, 0.7, 0.7]
    ensures stores[3].floats == [0.66, 0.66, 0.66] && stores[5].floats == [1.0, 0.0, 0.0]
    ensures stores[6].floats == [1.0, 1.0, 1.0]
    ensures stores[7].floats == [0.8] && stores[8].floats == [150.0]
  {
    var p := base;
    stores := [Store(p, Components(eyePos))];
    p := p + 16;
    // material
    stores := stores + [Store(p, [0.05, 0.05, 0.05])];
    p := p + 16;
    stores := stores + [Store(p, [0.7, 0.7, 0.7])];
    p := p + 16;
    stores := stores + [Store(p, [0.66, 0.66, 0.66])];
    p := p + 16;
    // light parameters
    stores := stores + [Store(p, Components(lightPos))];
    p := p + 16;
    stores := stores + [Store(p, [1.0, 0.0, 0.0])];
    p := p + 16;
    stores := stores + [Store(p, [1.0, 1.0, 1.0])];
    p := p + 12;
    stores := stores + [Store(p, [0.8])];
    p := p + 4;
    stores := stores + [Store(p, [150.0])];
    p := p + 4;
  }

  /**
   * The uniform sizes initResources computes, as bounds: multiples of the
   * alignment, each holding its block with less than one alignment of padding.
   */
  predicate SlotSizesHold(ua: nat, vertUniSize: nat, fragUniSize: nat)
  {
    ua >= 1
    && vertUniSize % ua == 0 && VERT_UNI_BYTES <= vertUniSize < VERT_UNI_BYTES + ua
    && fragUniSize % ua == 0 && FRAG_UNI_BYTES <= fragUniSize < FRAG_UNI_BYTES + ua
  }

  /** The bounds determine the sizes: there is one multiple of the alignment in each window. */
  lemma SlotSizesUnique(ua: nat, v: nat, f: nat, v': nat, f': nat)
    requires SlotSizesHold(ua, v, f) && SlotSizesHold(ua, v', f')
    ensures v == v' && f == f'
  {
    if v < v' {
      MultipleBelowMultiple(v, v', ua);
    } else if v' < v {
      MultipleBelowMultiple(v', v, ua);
    }
    if f < f' {
      MultipleBelowMultiple(f, f', ua);
    } else if f' < f {
      MultipleBelowMultiple(f', f, ua);
    }
  }

  /**
   * In a slot mapped at the frame's offset, the vertex stores stay within
   * [0, vertUniSize) and fragment stores written from vertUniSize stay within
   * [vertUniSize, vertUniSize + fragUniSize): the two blocks never overlap and
   * the mapped size covers both.
   */
  lemma SlotStoresInsideMapping(ua: nat, v: nat, f: nat, vp: seq<real>, model: seq<real>, modelNormal: seq<real>,
                                frag: seq<Store>)
    requires SlotSizesHold(ua, v, f)
    requires |vp| == 16 && |model| == 16 && |modelNormal| == 9
    requires FollowsFragmentBlock(frag, v)
    ensures var vs := VertexStores(vp, model, modelNormal);
            forall k :: 0 <= k < |vs| ==> vs[k].End() <= v
    ensures forall k :: 0 <= k < |frag| ==> v <= frag[k].offset && frag[k].End() <= v + f
    ensures var all := VertexStores(vp, model, modelNormal) + frag;
            |all| == 5 + |FRAGMENT_BLOCK| && all[..5] == VertexStores(vp, model, modelNormal) && all[5..] == frag
            && forall k :: 0 <= k < |all| ==> all[k].End() <= v + f
  {
    var vs := VertexStores(vp, model, modelNormal);
    VertexStoresInsideBlock(ua, v, f, vp, model, modelNormal);
    FragmentStoresInsideBlock(ua, v, f, frag);
    var all := vs + frag;
    assert forall k :: 0 <= k < 5 ==> all[k] == vs[k];
    assert forall k :: 5 <= k < |all| ==> all[k] == frag[k - 5];
  }

  lemma VertexStoresInsideBlock(ua: nat, v: nat, f: nat, vp: seq<real>, model: seq<real>, modelNormal: seq<real>)
    requires SlotSizesHold(ua, v, f)
    requires |vp| == 16 && |model| == 16 && |modelNormal| == 9
    ensures var vs := VertexStores(vp, model, modelNormal);
            forall k :: 0 <= k < |vs| ==> vs[k].End() <= v
  {
  }

  lemma FragmentStoresInsideBlock(ua: nat, v: nat, f: nat, frag: seq<Store>)
    requires SlotSizesHold(ua, v, f)
    requires FollowsFragmentBlock(frag, v)
    ensures forall k :: 0 <= k < |frag| ==> v <= frag[k].offset && frag[k].End() <= v + f
  {
    forall k | 0 <= k < |frag|
      ensures v <= frag[k].offset && frag[k].End() <= v + f
    {
      assert k < 9;
    }
  }

  // ---------------------------------------------------------------------------
  // When a frame's uniforms are rewritten

  /** One item build's effect on the animation and dirty counter. */
  datatype UniformStep = UniformStep(upload: bool, vpDirty: int, rotation: real)

  /**
   * renderer.cpp, buildDrawCallsForItems: the rotation advances by half a
   * degree only while animating; the slot is rewritten iff animating or the
   * view-projection is dirty, and a non-zero counter is decremented.
   */
  function ItemsUniformStep(animating: bool, vpDirty: int, rotation: real): (s: UniformStep)
    ensures s.rotation == (if animating then rotation + 0.5 else rotation)
    ensures s.upload <==> animating || vpDirty != 0
    ensures vpDirty >= 0 ==> 0 <= s.vpDirty <= vpDirty
    ensures vpDirty > 0 ==> s.vpDirty == vpDirty - 1
    ensures vpDirty == 0 ==> s.vpDirty == 0
  {
    var rotation' := if animating then rotation + 0.5 else rotation;
    if animating || vpDirty != 0 then
      UniformStep(true, if vpDirty != 0 then vpDirty - 1 else vpDirty, rotation')
    else
      UniformStep(false, vpDirty, rotation')
  }

  /** Whether each of `builds` successive item builds rewrites the slot, with animation off. */
  function UploadsWhileStill(vpDirty: int, builds: nat): (uploads: seq<bool>)
    ensures |uploads| == builds
    decreases builds
  {
    if builds == 0 then []
    else
      var s := ItemsUniformStep(false, vpDirty, 0.0);
      [s.upload] + UploadsWhileStill(s.vpDirty, builds - 1)
  }

  /**
   * With animation off, after the counter is set to n the next n item builds
   * rewrite the uniforms and every later one does not.
   */
  lemma {:induction false} UploadsWhileStillExact(n: nat, builds: nat)
    ensures forall i :: 0 <= i < builds ==> UploadsWhileStill(n, builds)[i] == (i < n)
    decreases builds
  {
    if builds > 0 {
      var s := ItemsUniformStep(false, n, 0.0);
      UploadsWhileStillExact(s.vpDirty, builds - 1);
      var u := UploadsWhileStill(n, builds);
      assert u == [s.upload] + UploadsWhileStill(s.vpDirty, builds - 1);
      forall i | 0 <= i < builds
        ensures u[i] == (i < n)
      {
        if i > 0 {
          assert u[i] == UploadsWhileStill(s.vpDirty, builds - 1)[i - 1];
        }
      }
    }
  }
}
