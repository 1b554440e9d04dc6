/**
 * The renderer (renderer.h, renderer.cpp): the state a QVulkanWindowRenderer
 * keeps between the window's lifecycle callbacks and its per-frame work.
 *
 * Vulkan and the window are outside the model. Creating an object yields a
 * fresh live handle (`nextHandle` numbers them); a destroy call is recorded in
 * `destroyed`; the commands recorded into the frame's command buffer are
 * appended to `commands`; the bytes memcpy'd into mapped memory are recorded
 * in `uniformWrites` and `instanceUploads` (the sizes of each instance
 * upload as the source writes it, in `mappedCopies`); `frameReadyCount` and
 * `updateRequests` count the calls of the window's frameReady() and
 * requestUpdate(). Work the source runs on worker threads (createPipelines,
 * buildFrame, shader loads) runs here as a sequential call at the point where
 * it is started.
 */
module Renders {
  import opened Vulkan
  import opened Utilities
  import opened Shaders
  import opened Cameras
  import opened Layout
  import opened Instances
  import U = Uniforms

  /** QVulkanWindow::MAX_CONCURRENT_FRAME_COUNT. */
  const MAX_CONCURRENT_FRAME_COUNT: nat := 3

  /** The largest minUniformBufferOffsetAlignment a Vulkan device may report. */
  const MAX_UNIFORM_ALIGNMENT: nat := 256

  /** The commands the renderer records into a frame's command buffer. */
  datatype Command =
    | BeginRenderPass
    | SetViewport
    | SetScissor
    | BindPipeline(pipeline: Handle)
    | BindVertexBuffer(binding: nat, buffer: Handle)
    | BindDescriptorSet(descriptorSet: Handle, dynamicOffsets: seq<nat>)
    | PushConstants(offset: nat, size: nat)
    | Draw(vertexCount: nat, instanceCount: nat)
    | EndRenderPass

  type Mat4Floats = s: seq<real> | |s| == 16 witness seq(16, _ => 0.0)
  type Mat3Floats = s: seq<real> | |s| == 9 witness seq(9, _ => 0.0)

  /** What getMatrices computes from the camera, projection and rotation. */
  datatype Matrices = Matrices(vp: Mat4Floats, model: Mat4Floats, modelNormal: Mat3Floats, eyePos: Vec3)

  /** One write of a frame's uniform slot: the mapped range of the allocation and what is copied into it. */
  datatype UniformWrite = UniformWrite(mapOffset: nat, mapSize: nat, stores: seq<U.Store>)

  /** What the window and the device supply to one frame. */
  datatype FrameInput = FrameInput(
    currentFrame: nat,                   // mWindow->currentFrame()
    requirements: BufferRequirements,    // vkGetBufferMemoryRequirements for the four buffers
    gen: nat -> InstanceRecord,          // the random records of new instances
    matrices: Matrices)                  // getMatrices

  /** initResources' `if (!s.isValid()) s.load(…)`: a valid shader keeps its data, any other one takes the load's. */
  predicate LoadedIfInvalid(before: ShaderData, after: ShaderData, outcome: LoadOutcome)
  {
    if before.IsValid() then after == before else after == LoadTask(outcome)
  }

  /** A destroy call for a handle that is set, none for VK_NULL_HANDLE. */
  function Kept(h: Handle): (r: seq<Handle>)
    ensures r == [] <==> h == Null
    ensures h != Null ==> r == [h]
  {
    if h != Null then [h] else []
  }

  /**
   * The instance effect of one ensureInstanceBuffer, from the prepared count,
   * records, uploads and copies it started from (and whether every instance
   * was already prepared in an existing buffer) to the count, records, bytes,
   * uploads and copies it left: the records grow by exactly the generated
   * ones, and one upload is made unless there was nothing to do.
   */
  ghost predicate InstancesEnsured(gen: nat -> InstanceRecord, wasReady: bool, preparedBefore: nat,
                                   recordsBefore: seq<InstanceRecord>, uploadsBefore: seq<seq<byte>>,
                                   copiesBefore: seq<MappedCopy>, instCount: nat, records: seq<InstanceRecord>,
                                   instData: seq<byte>, uploads: seq<seq<byte>>, copies: seq<MappedCopy>)
  {
    preparedBefore <= instCount
    && records == recordsBefore + Generated(gen, preparedBefore, instCount)
    && (wasReady ==> uploads == uploadsBefore && copies == copiesBefore)
    && (!wasReady ==>
          uploads == uploadsBefore + [EncodeAll(records)]
          && copies == copiesBefore + [InstanceUploadAsWritten(instCount, instData)])
  }

  /**
   * The shared-buffer effect of one ensureBuffers on requirements `r`, from
   * the buffers, item material and allocation it started from, with `n` the
   * next fresh handle then: existing buffers keep everything; otherwise five
   * fresh handles, the layout's uniform offset in the material, and an
   * allocation of the layout's size holding the four bound regions, the three
   * vertex copies and the two uniform descriptor ranges.
   */
  ghost predicate BuffersEnsured(r: BufferRequirements, blockBytes: nat, logoBytes: nat, n: nat,
                                 buffersBefore: SharedBuffers, matBefore: ItemMaterial, allocBefore: Allocation,
                                 buffers: SharedBuffers, mat: ItemMaterial, alloc: Allocation)
  {
    buffers.blockVertex != Null
    && (buffersBefore.blockVertex != Null ==> buffers == buffersBefore && mat == matBefore && alloc == allocBefore)
    && (buffersBefore.blockVertex == Null ==>
          var l := ComputeBufferLayout(r);
          buffers == SharedBuffers(Live(n), Live(n + 1), Live(n + 2), Live(n + 3), Live(n + 4))
          && mat == matBefore.(uniMemStartOffset := l.uniMemStartOffset)
          && alloc == Allocation(l.allocationSize, BoundRegions(r, l), VertexCopies(l, blockBytes, logoBytes),
                                 [Region(0, mat.vertUniSize), Region(mat.vertUniSize, mat.fragUniSize)]))
  }

  /**
   * The instance-buffer handles after one ensureInstanceBuffer, with `n` the
   * next fresh handle when it started: the buffer exists afterwards, and its
   * buffer and memory are the next two fresh handles exactly when it had
   * something to do and no buffer existed.
   */
  ghost predicate InstanceBufferEnsured(wasReady: bool, n: nat, bufBefore: Handle, memBefore: Handle,
                                        nextHandle: nat, buf: Handle, mem: Handle)
  {
    buf != Null
    && (wasReady || bufBefore != Null ==> buf == bufBefore && mem == memBefore && nextHandle == n)
    && (!wasReady && bufBefore == Null ==> buf == Live(n) && mem == Live(n + 1) && nextHandle == n + 2)
  }

  /**
   * The properties of the write rewriting frame `currentFrame`'s uniform slot
   * with matrices `m`, for the item material `mat`, an allocation of
   * `allocSize` bytes and the light at `light`.
   */
  ghost predicate IsFrameSlotWrite(w: UniformWrite, mat: ItemMaterial, allocSize: nat, light: Vec3,
                                   currentFrame: nat, m: Matrices)
  {
    var v, f := mat.vertUniSize, mat.fragUniSize;
    w.mapOffset == mat.uniMemStartOffset + currentFrame * (v + f)
    && w.mapSize == v + f
    && w.mapOffset + w.mapSize <= allocSize
    && 5 <= |w.stores|
    && w.stores[..5] == U.VertexStores(m.vp, m.model, m.modelNormal)
    && U.FollowsFragmentBlock(w.stores[5..], v)
    && w.stores[5].floats == U.Components(m.eyePos) && w.stores[9].floats == U.Components(light)
    && (forall k :: 0 <= k < |w.stores| ==> w.stores[k].End() <= w.mapSize)
  }

  /**
   * The uniform effect of one buildDrawCallsForItems whose step is `s`
   * (ItemsUniformStep of the counter and rotation it started from): the
   * rotation and the counter end as the step says, and one write of the
   * frame's slot is appended to `writesBefore` exactly when the step uploads.
   */
  ghost predicate ItemsUniformsStepped(s: U.UniformStep, writesBefore: seq<UniformWrite>, rotation: real, vpDirty: int,
                                       writes: seq<UniformWrite>, mat: ItemMaterial, allocSize: nat, light: Vec3,
                                       currentFrame: nat, m: Matrices)
  {
    rotation == s.rotation && vpDirty == s.vpDirty
    && (s.upload ==>
          |writes| == |writesBefore| + 1
          && writes[..|writesBefore|] == writesBefore
          && IsFrameSlotWrite(writes[|writesBefore|], mat, allocSize, light, currentFrame, m))
    && (!s.upload ==> writes == writesBefore)
  }

  /** The renderer fields a frame build reads or changes, taken before it (see Renderer.Snapshot). */
  datatype FrameSnapshot = FrameSnapshot(wasReady: bool, nextHandle: nat, buffers: SharedBuffers,
                                         itemMaterial: ItemMaterial, allocation: Allocation,
                                         instBuf: Handle, instBufMem: Handle, preparedInstCount: nat,
                                         records: seq<InstanceRecord>, instanceUploads: seq<seq<byte>>,
                                         mappedCopies: seq<MappedCopy>, vpDirty: int, rotation: real,
                                         uniformWrites: seq<UniformWrite>, commands: seq<Command>)

  /**
   * renderer.h `mItemMaterial` without its two shaders (those are the
   * renderer's `itemVs` and `itemFs`): the uniform block sizes, where the
   * uniform buffer starts in the shared allocation, and the Vulkan objects.
   */
  datatype ItemMaterial = ItemMaterial(
    vertUniSize: DeviceSize,
    fragUniSize: DeviceSize,
    uniMemStartOffset: DeviceSize,
    descriptorPool: Handle,
    descriptorSetLayout: Handle,
    descriptorSet: Handle,
    pipelineLayout: Handle,
    pipeline: Handle)
  {
    /** The destroy calls releaseResources makes for the material, in its order. */
    function Destroys(): seq<Handle>
    {
      Kept(descriptorSetLayout) + Kept(descriptorPool) + Kept(pipeline) + Kept(pipelineLayout)
    }

    /** What releaseResources nulls; the descriptor set goes with its pool and keeps its value. */
    predicate Released()
    {
      descriptorSetLayout == Null && descriptorPool == Null && pipeline == Null && pipelineLayout == Null
    }
  }

  /** renderer.h `mFloorMaterial` without its two shaders (`floorVs`, `floorFs`). */
  datatype FloorMaterial = FloorMaterial(pipelineLayout: Handle, pipeline: Handle)
  {
    function Destroys(): seq<Handle>
    {
      Kept(pipeline) + Kept(pipelineLayout)
    }

    predicate Released()
    {
      pipeline == Null && pipelineLayout == Null
    }
  }

  /**
   * The objects ensureBuffers creates together and releaseResources destroys
   * one after the other: mBlockVertexBuf, mLogoVertexBuf, mFloorVertexBuf,
   * mUniBuf and the allocation mBufMem they are bound to.
   */
  datatype SharedBuffers = SharedBuffers(blockVertex: Handle, logoVertex: Handle, floorVertex: Handle,
                                         uniform: Handle, memory: Handle)
  {
    function Destroys(): seq<Handle>
    {
      Kept(blockVertex) + Kept(logoVertex) + Kept(floorVertex) + Kept(uniform) + Kept(memory)
    }

    predicate Released()
    {
      blockVertex == Null && logoVertex == Null && floorVertex == Null && uniform == Null && memory == Null
    }
  }

  /**
   * What ensureBuffers did with the shared allocation: its size, the range
   * each buffer is bound to, the ranges the vertex data is copied into, and
   * the ranges of the two uniform descriptors within a frame's slot.
   */
  datatype Allocation = Allocation(size: nat, bindings: seq<Region>, vertexCopies: seq<Region>,
                                   uniformDescriptorRanges: seq<Region>)

  /** buildDrawCallsForFloor: push-constant mvp and colour, then a 4-vertex strip. */
  function FloorCommandsOf(pipeline: Handle, vertexBuf: Handle): seq<Command>
  {
    [BindPipeline(pipeline), BindVertexBuffer(0, vertexBuf),
     PushConstants(0, 64), PushConstants(64, 12), Draw(FLOOR_VERTEX_COUNT, 1)]
  }

  /** buildDrawCallsForItems: mesh and instance buffers, the frame's dynamic offsets, and an instanced draw. */
  function ItemCommandsOf(pipeline: Handle, meshBuf: Handle, instBuf: Handle, descriptorSet: Handle,
                          frameUniOffset: nat, vertexCount: nat, instanceCount: nat): seq<Command>
  {
    [BindPipeline(pipeline), BindVertexBuffer(0, meshBuf), BindVertexBuffer(1, instBuf),
     BindDescriptorSet(descriptorSet, [frameUniOffset, frameUniOffset]),
     Draw(vertexCount, instanceCount)]
  }

  /** The commands of buildFrame: a render pass holding the floor's draw and then the items'. */
  function FrameCommands(floor: seq<Command>, items: seq<Command>): seq<Command>
  {
    [BeginRenderPass, SetViewport, SetScissor] + floor + items + [EndRenderPass]
  }

  class Renderer {
    const concurrentFrameCount: nat
    const uniformAlignment: DeviceSize
    const blockVertexCount: nat
    const logoVertexCount: nat
    const lightPos: Vec3
    const itemVs: Shader
    const itemFs: Shader
    const floorVs: Shader
    const floorFs: Shader
    const cam: Camera

    var useLogo: bool
    var itemMaterial: ItemMaterial
    var floorMaterial: FloorMaterial
    var buffers: SharedBuffers
    var pipelineCache: Handle

    var vpDirty: int
    var animating: bool
    var rotation: real

    var instCount: nat
    var preparedInstCount: nat
    var instData: seq<byte>
    var instBuf: Handle
    var instBufMem: Handle

    var framePending: bool

    // Effects on the window and the device.
    var frameReadyCount: nat
    var updateRequests: nat
    var nextHandle: nat
    var commands: seq<Command>
    var uniformWrites: seq<UniformWrite>
    var instanceUploads: seq<seq<byte>>
    var mappedCopies: seq<MappedCopy>
    var destroyed: seq<Handle>

    // Bookkeeping for the proofs.
    ghost var framesStarted: nat
    ghost var records: seq<InstanceRecord>
    ghost var allocation: Allocation

    /** The uniform sizes hold what initResources computes from the device's alignment (as bounds). */
    predicate UniformSizesSet()
      reads this`itemMaterial
    {
      U.SlotSizesHold(uniformAlignment, itemMaterial.vertUniSize, itemMaterial.fragUniSize)
    }

    /** The fixed configuration: the window's frame count, the device's alignment, four distinct shaders. */
    predicate ConfigValid()
    {
      1 <= concurrentFrameCount <= MAX_CONCURRENT_FRAME_COUNT
      && IsPowerOfTwo(uniformAlignment) && uniformAlignment <= MAX_UNIFORM_ALIGNMENT
      && itemVs != itemFs && itemVs != floorVs && itemVs != floorFs
      && itemFs != floorVs && itemFs != floorFs && floorVs != floorFs
    }

    /** The byte copy of the prepared instances starts with their records' encoding. */
    ghost predicate InstanceDataValid()
      reads this`preparedInstCount, this`instCount, this`instData, this`records
    {
      preparedInstCount <= instCount && preparedInstCount <= MAX_INSTANCES
      && (|instData| == 0 || |instData| == INSTANCE_BUFFER_BYTES)
      && (preparedInstCount > 0 ==> |instData| == INSTANCE_BUFFER_BYTES)
      && |records| == preparedInstCount
      && StartsWithRecords(instData, records)
    }

    /** Once the instance buffer exists, the CPU copy has room for MAX_INSTANCES records. */
    predicate InstanceBufferSized()
      reads this`instBuf, this`instData
    {
      instBuf != Null ==> |instData| == INSTANCE_BUFFER_BYTES
    }

    /** No frame is reported ready that was not started, and a pending one is not yet reported. */
    ghost predicate FramesValid()
      reads this`frameReadyCount, this`framePending, this`framesStarted
    {
      frameReadyCount + (if framePending then 1 else 0) <= framesStarted
    }

    /** Once the buffers exist, every frame's uniform slot lies inside the allocation. */
    ghost predicate BuffersValid()
      reads this`buffers, this`itemMaterial, this`allocation
    {
      buffers.blockVertex != Null ==>
        UniformSizesSet()
        && itemMaterial.uniMemStartOffset
           + U.UniformBufferSize(itemMaterial.vertUniSize, itemMaterial.fragUniSize, concurrentFrameCount)
           <= allocation.size
    }

    ghost predicate Valid()
      reads this`vpDirty, this`preparedInstCount, this`instCount, this`instData, this`instBuf, this`records
      reads this`frameReadyCount, this`framePending, this`framesStarted
      reads this`buffers, this`itemMaterial, this`allocation
    {
      ConfigValid() && 0 <= vpDirty <= concurrentFrameCount
      && InstanceDataValid() && InstanceBufferSized() && FramesValid() && BuffersValid()
    }

    /** Every handle releaseResources destroys is null. */
    predicate AllNull()
      reads this`itemMaterial, this`floorMaterial, this`pipelineCache, this`buffers, this`instBuf, this`instBufMem
    {
      itemMaterial.Released() && floorMaterial.Released() && pipelineCache == Null
      && buffers.Released() && instBuf == Null && instBufMem == Null
    }

    /** The first destroy calls of releaseResources: the two materials, then the pipeline cache. */
    function PipelineTeardown(): (destroys: seq<Handle>)
      reads this`itemMaterial, this`floorMaterial, this`pipelineCache
      ensures destroys == [] <==> itemMaterial.Released() && floorMaterial.Released() && pipelineCache == Null
    {
      itemMaterial.Destroys() + floorMaterial.Destroys() + Kept(pipelineCache)
    }

    /** The rest: the shared buffers and their memory, then the instance buffer and its memory. */
    function BufferTeardown(): (destroys: seq<Handle>)
      reads this`buffers, this`instBuf, this`instBufMem
      ensures destroys == [] <==> buffers.Released() && instBuf == Null && instBufMem == Null
    {
      buffers.Destroys() + Kept(instBuf) + Kept(instBufMem)
    }

    /** Nothing left to destroy: every handle is null and no shader holds a module. */
    predicate Quiescent()
      reads this`itemMaterial, this`floorMaterial, this`pipelineCache, this`buffers, this`instBuf, this`instBufMem
      reads itemVs, itemFs, floorVs, floorFs
    {
      AllNull()
      && !itemVs.Current().IsValid() && !itemFs.Current().IsValid()
      && !floorVs.Current().IsValid() && !floorFs.Current().IsValid()
    }

    /** The vertex buffer and vertex count of the mesh the items are drawn with. */
    function ItemVertexBuffer(): Handle
      reads this`useLogo, this`buffers
    {
      if useLogo then buffers.logoVertex else buffers.blockVertex
    }

    function ItemVertexCount(): nat
      reads this`useLogo
    {
      if useLogo then logoVertexCount else blockVertexCount
    }

    /** The byte offset of frame `currentFrame`'s slot in the uniform buffer. */
    function FrameUniOffset(currentFrame: nat): nat
      reads this`itemMaterial
    {
      U.FrameUniOffset(currentFrame, itemMaterial.vertUniSize, itemMaterial.fragUniSize)
    }

    /** buildDrawCallsForFloor: push-constant mvp and colour, then a 4-vertex strip. */
    function FloorCommands(): seq<Command>
      reads this`floorMaterial, this`buffers
    {
      FloorCommandsOf(floorMaterial.pipeline, buffers.floorVertex)
    }

    /** buildDrawCallsForItems: mesh and instance buffers, the frame's dynamic offsets, and an instanced draw. */
    function ItemCommands(frameUniOffset: nat): seq<Command>
      reads this`itemMaterial, this`useLogo, this`buffers, this`instBuf, this`instCount
    {
      ItemCommandsOf(itemMaterial.pipeline, ItemVertexBuffer(), instBuf, itemMaterial.descriptorSet,
                     frameUniOffset, ItemVertexCount(), instCount)
    }

    /**
     * renderer.cpp constructor and renderer.h initialisers: no Vulkan object
     * yet, nothing dirty, not animating, no frame pending, no instance
     * prepared; the camera at (0, 0, 20) and the light at (0, 0, 25).
     */
    constructor (frameCount: nat, deviceUniformAlignment: DeviceSize, initialCount: nat,
                 blockMeshVertexCount: nat, logoMeshVertexCount: nat)
      requires 1 <= frameCount <= MAX_CONCURRENT_FRAME_COUNT
      requires IsPowerOfTwo(deviceUniformAlignment) && deviceUniformAlignment <= MAX_UNIFORM_ALIGNMENT
      ensures Valid()
      ensures concurrentFrameCount == frameCount && uniformAlignment == deviceUniformAlignment
      ensures instCount == initialCount && preparedInstCount == 0 && instData == []
      ensures vpDirty == 0 && !framePending && !animating && rotation == 0.0 && !useLogo
      ensures blockVertexCount == blockMeshVertexCount && logoVertexCount == logoMeshVertexCount
      ensures Quiescent()
      ensures cam.pos == Vec3(0.0, 0.0, 20.0) && lightPos == Vec3(0.0, 0.0, 25.0)
      ensures !itemVs.WillJoin() && !itemFs.WillJoin() && !floorVs.WillJoin() && !floorFs.WillJoin()
      ensures commands == [] && destroyed == [] && frameReadyCount == 0 && updateRequests == 0
      ensures instanceUploads == [] && mappedCopies == [] && uniformWrites == []
      ensures fresh(itemVs) && fresh(itemFs) && fresh(floorVs) && fresh(floorFs) && fresh(cam)
    {
      concurrentFrameCount := frameCount;
      uniformAlignment := deviceUniformAlignment;
      blockVertexCount := blockMeshVertexCount;
      logoVertexCount := logoMeshVertexCount;
      lightPos := Vec3(0.0, 0.0, 25.0);
      cam := new Camera(Vec3(0.0, 0.0, 20.0));
      itemVs := new Shader();
      itemFs := new Shader();
      floorVs := new Shader();
      floorFs := new Shader();
      instCount := initialCount;
      useLogo := false;
      itemMaterial := ItemMaterial(0, 0, 0, Null, Null, Null, Null, Null);
      floorMaterial := FloorMaterial(Null, Null);
      buffers := SharedBuffers(Null, Null, Null, Null, Null);
      pipelineCache := Null;
      vpDirty := 0;
      animating := false;
      rotation := 0.0;
      preparedInstCount := 0;
      instData := [];
      instBuf, instBufMem := Null, Null;
      framePending := false;
      frameReadyCount, updateRequests, nextHandle := 0, 0, 0;
      commands, uniformWrites, instanceUploads, destroyed := [], [], [], [];
      mappedCopies := [];
      framesStarted := 0;
      records := [];
      allocation := Allocation(0, [], [], []);
    }

    // -------------------------------------------------------------------------
    // Lifecycle

    /** Load a shader unless it is already valid (`isValid()` joins a pending load first). */
    method LoadIfInvalid(s: Shader, outcome: LoadOutcome)
      modifies s`data, s`joins, s`maybeRunning, s`future
      ensures LoadedIfInvalid(old(s.Current()), s.Current(), outcome)
      ensures !old(s.Current()).IsValid() ==> s.maybeRunning
    {
      var valid := s.IsValid();
      if !valid {
        s.Load(outcome);
      }
    }

    /**
     * renderer.cpp `initResources`: start animating, clear the pending flag,
     * compute both uniform sizes, load each shader that is not valid, then
     * create the pipelines.
     */
    method InitResources(itemVsLoad: LoadOutcome, itemFsLoad: LoadOutcome,
                         floorVsLoad: LoadOutcome, floorFsLoad: LoadOutcome)
      requires Valid()
      modifies this`animating, this`framePending, this`itemMaterial, this`floorMaterial
      modifies this`pipelineCache, this`nextHandle
      modifies itemVs`data, itemVs`joins, itemVs`maybeRunning, itemVs`future
      modifies itemFs`data, itemFs`joins, itemFs`maybeRunning, itemFs`future
      modifies floorVs`data, floorVs`joins, floorVs`maybeRunning, floorVs`future
      modifies floorFs`data, floorFs`joins, floorFs`maybeRunning, floorFs`future
      ensures Valid()
      ensures animating && !framePending && UniformSizesSet()
      ensures LoadedIfInvalid(old(itemVs.Current()), itemVs.Current(), itemVsLoad)
      ensures LoadedIfInvalid(old(itemFs.Current()), itemFs.Current(), itemFsLoad)
      ensures LoadedIfInvalid(old(floorVs.Current()), floorVs.Current(), floorVsLoad)
      ensures LoadedIfInvalid(old(floorFs.Current()), floorFs.Current(), floorFsLoad)
      ensures PipelinesCreated(old(nextHandle))
    {
      BeginResources();
      LoadShaders(itemVsLoad, itemFsLoad, floorVsLoad, floorFsLoad);
      CreatePipelines();
    }

    /**
     * The first half of initResources: start animating, then size the
     * uniform blocks. Only the bounds on the sizes are passed on.
     */
    method BeginResources()
      requires Valid()
      modifies this`animating, this`framePending, this`itemMaterial
      ensures Valid() && animating && !framePending && UniformSizesSet()
      ensures itemMaterial.uniMemStartOffset == old(itemMaterial.uniMemStartOffset)
    {
      StartAnimating();
      ComputeUniformSizes();
    }

    /** initResources begins with `mAnimating = true; mFramePending = false;`. */
    method StartAnimating()
      requires Valid()
      modifies this`animating, this`framePending
      ensures Valid() && animating && !framePending
    {
      animating := true;
      framePending := false;
    }

    /** initResources: start loading each of the four shaders that is not valid. */
    method LoadShaders(itemVsLoad: LoadOutcome, itemFsLoad: LoadOutcome,
                       floorVsLoad: LoadOutcome, floorFsLoad: LoadOutcome)
      requires ConfigValid()
      modifies itemVs`data, itemVs`joins, itemVs`maybeRunning, itemVs`future
      modifies itemFs`data, itemFs`joins, itemFs`maybeRunning, itemFs`future
      modifies floorVs`data, floorVs`joins, floorVs`maybeRunning, floorVs`future
      modifies floorFs`data, floorFs`joins, floorFs`maybeRunning, floorFs`future
      ensures LoadedIfInvalid(old(itemVs.Current()), itemVs.Current(), itemVsLoad)
      ensures LoadedIfInvalid(old(itemFs.Current()), itemFs.Current(), itemFsLoad)
      ensures LoadedIfInvalid(old(floorVs.Current()), floorVs.Current(), floorVsLoad)
      ensures LoadedIfInvalid(old(floorFs.Current()), floorFs.Current(), floorFsLoad)
    {
      LoadIfInvalid(itemVs, itemVsLoad);
      LoadIfInvalid(itemFs, itemFsLoad);
      LoadIfInvalid(floorVs, floorVsLoad);
      LoadIfInvalid(floorFs, floorFsLoad);
    }

    /** renderer.cpp, initResources: both uniform block sizes rounded up to the device's uniform alignment. */
    method ComputeUniformSizes()
      requires Valid()
      modifies this`itemMaterial
      ensures Valid()
      ensures itemMaterial == old(itemMaterial).(vertUniSize := U.VertUniSize(uniformAlignment),
                                                fragUniSize := U.FragUniSize(uniformAlignment))
      ensures UniformSizesSet()
      ensures old(UniformSizesSet()) ==> itemMaterial == old(itemMaterial)
    {
      ghost var m0 := itemMaterial;
      itemMaterial := itemMaterial.(vertUniSize := U.VertUniSize(uniformAlignment),
                                    fragUniSize := U.FragUniSize(uniformAlignment));
      U.UniformSizesHoldBlocks(uniformAlignment);
      if U.SlotSizesHold(uniformAlignment, m0.vertUniSize, m0.fragUniSize) {
        U.SlotSizesUnique(uniformAlignment, m0.vertUniSize, m0.fragUniSize,
                          itemMaterial.vertUniSize, itemMaterial.fragUniSize);
      }
    }

    /**
     * The pipeline objects are the fresh handles numbered from `first`, in
     * creation order, and the item material's sizes and offset are untouched.
     */
    predicate PipelinesCreated(first: nat)
      reads this`pipelineCache, this`itemMaterial, this`floorMaterial, this`nextHandle
    {
      pipelineCache == Live(first)
      && itemMaterial.descriptorPool == Live(first + 1) && itemMaterial.descriptorSetLayout == Live(first + 2)
      && itemMaterial.descriptorSet == Live(first + 3) && itemMaterial.pipelineLayout == Live(first + 4)
      && itemMaterial.pipeline == Live(first + 5)
      && floorMaterial == FloorMaterial(Live(first + 6), Live(first + 7))
      && nextHandle == first + 8
    }

    /**
     * renderer.cpp `createPipelines`, `createItemPipeline`, `createFloorPipeline`:
     * the pipeline cache, then the item material's descriptor objects, layout
     * and pipeline, then the floor's layout and pipeline. Building a pipeline
     * takes its shaders' `data()`, so it waits for their loads.
     */
    method CreatePipelines()
      requires Valid()
      modifies this`nextHandle, this`pipelineCache, this`itemMaterial, this`floorMaterial
      modifies itemVs`data, itemVs`joins, itemFs`data, itemFs`joins
      modifies floorVs`data, floorVs`joins, floorFs`data, floorFs`joins
      ensures Valid()
      ensures PipelinesCreated(old(nextHandle))
      ensures itemMaterial.vertUniSize == old(itemMaterial.vertUniSize)
      ensures itemMaterial.fragUniSize == old(itemMaterial.fragUniSize)
      ensures itemMaterial.uniMemStartOffset == old(itemMaterial.uniMemStartOffset)
      ensures itemVs.Current() == old(itemVs.Current()) && itemFs.Current() == old(itemFs.Current())
      ensures floorVs.Current() == old(floorVs.Current()) && floorFs.Current() == old(floorFs.Current())
    {
      pipelineCache := Live(nextHandle);
      nextHandle := nextHandle + 1;
      CreateItemPipeline();
      CreateFloorPipeline();
    }

    /** renderer.cpp `createItemPipeline`: descriptor pool, set layout, set, pipeline layout, then the pipeline. */
    method CreateItemPipeline()
      requires Valid()
      modifies this`nextHandle, this`itemMaterial, itemVs`data, itemVs`joins, itemFs`data, itemFs`joins
      ensures Valid()
      ensures var n := old(nextHandle);
              itemMaterial == old(itemMaterial).(descriptorPool := Live(n), descriptorSetLayout := Live(n + 1),
                                                 descriptorSet := Live(n + 2), pipelineLayout := Live(n + 3),
                                                 pipeline := Live(n + 4))
              && nextHandle == n + 5
      ensures itemVs.data == old(itemVs.Current()) && itemFs.data == old(itemFs.Current())
      ensures itemVs.Current() == old(itemVs.Current()) && itemFs.Current() == old(itemFs.Current())
    {
      var n := nextHandle;
      var vs := itemVs.Data();
      var fs := itemFs.Data();
      itemMaterial := itemMaterial.(descriptorPool := Live(n), descriptorSetLayout := Live(n + 1),
                                    descriptorSet := Live(n + 2), pipelineLayout := Live(n + 3),
                                    pipeline := Live(n + 4));
      nextHandle := n + 5;
    }

    /** renderer.cpp `createFloorPipeline`: the pipeline layout, then the pipeline. */
    method CreateFloorPipeline()
      requires Valid()
      modifies this`nextHandle, this`floorMaterial, floorVs`data, floorVs`joins, floorFs`data, floorFs`joins
      ensures Valid()
      ensures floorMaterial == FloorMaterial(Live(old(nextHandle)), Live(old(nextHandle) + 1))
      ensures nextHandle == old(nextHandle) + 2
      ensures floorVs.data == old(floorVs.Current()) && floorFs.data == old(floorFs.Current())
      ensures floorVs.Current() == old(floorVs.Current()) && floorFs.Current() == old(floorFs.Current())
    {
      var vs := floorVs.Data();
      var fs := floorFs.Data();
      floorMaterial := FloorMaterial(Live(nextHandle), Live(nextHandle + 1));
      nextHandle := nextHandle + 2;
    }

    /** renderer.h `markViewProjDirty`: every frame in flight needs new uniforms. */
    method MarkViewProjDirty()
      requires Valid()
      modifies this`vpDirty
      ensures Valid() && vpDirty == concurrentFrameCount
    {
      vpDirty := concurrentFrameCount;
    }

    /** renderer.cpp `initSwapChainResources`: a new projection, so the view-projection is dirty. */
    method InitSwapChainResources()
      requires Valid()
      modifies this`vpDirty
      ensures Valid() && vpDirty == concurrentFrameCount
    {
      MarkViewProjDirty();
    }

    /**
     * renderer.cpp `releaseSwapChainResources`: finish a pending frame here,
     * signalling frameReady once, since the watcher's signal may come too late.
     */
    method ReleaseSwapChainResources()
      requires Valid()
      modifies this`framePending, this`frameReadyCount
      ensures Valid() && !framePending
      ensures frameReadyCount == old(frameReadyCount) + (if old(framePending) then 1 else 0)
    {
      if framePending {
        framePending := false;
        frameReadyCount := frameReadyCount + 1;
      }
    }

    /**
     * The frame watcher's `finished` handler (renderer.cpp constructor):
     * only a still-pending frame is reported ready and a new update requested.
     */
    method FrameFinished()
      requires Valid()
      modifies this`framePending, this`frameReadyCount, this`updateRequests
      ensures Valid() && !framePending
      ensures frameReadyCount == old(frameReadyCount) + (if old(framePending) then 1 else 0)
      ensures updateRequests == old(updateRequests) + (if old(framePending) then 1 else 0)
    {
      if framePending {
        framePending := false;
        frameReadyCount := frameReadyCount + 1;
        updateRequests := updateRequests + 1;
      }
    }

    /**
     * renderer.cpp `releaseResources`: destroy each object whose handle is
     * set, in a fixed order, and null it; then destroy the module of each
     * valid shader and reset it. A second call destroys nothing.
     */
    method ReleaseResources()
      requires Valid()
      modifies this`itemMaterial, this`floorMaterial, this`pipelineCache, this`buffers
      modifies this`instBuf, this`instBufMem, this`destroyed
      modifies itemVs`data, itemVs`joins, itemVs`maybeRunning
      modifies itemFs`data, itemFs`joins, itemFs`maybeRunning
      modifies floorVs`data, floorVs`joins, floorVs`maybeRunning
      modifies floorFs`data, floorFs`joins, floorFs`maybeRunning
      ensures Valid() && Quiescent()
      ensures destroyed == old(destroyed) + old(PipelineTeardown()) + old(BufferTeardown())
                + Kept(old(itemVs.Current()).shaderModule) + Kept(old(itemFs.Current()).shaderModule)
                + Kept(old(floorVs.Current()).shaderModule) + Kept(old(floorFs.Current()).shaderModule)
      ensures old(Quiescent()) ==> destroyed == old(destroyed)
    {
      ReleasePipelineHandles();
      ReleaseBufferHandles();
      ReleaseShaders();
    }

    /** The shader part of releaseResources, for the four shaders in order. */
    method ReleaseShaders()
      requires Valid() && AllNull()
      modifies itemVs`data, itemVs`joins, itemVs`maybeRunning
      modifies itemFs`data, itemFs`joins, itemFs`maybeRunning
      modifies floorVs`data, floorVs`joins, floorVs`maybeRunning
      modifies floorFs`data, floorFs`joins, floorFs`maybeRunning
      modifies this`destroyed
      ensures Valid() && Quiescent()
      ensures destroyed == old(destroyed)
                + Kept(old(itemVs.Current()).shaderModule) + Kept(old(itemFs.Current()).shaderModule)
                + Kept(old(floorVs.Current()).shaderModule) + Kept(old(floorFs.Current()).shaderModule)
      ensures !itemVs.Current().IsValid() && !itemFs.Current().IsValid()
      ensures !floorVs.Current().IsValid() && !floorFs.Current().IsValid()
    {
      ReleaseShader(itemVs);
      ReleaseShader(itemFs);
      ReleaseShader(floorVs);
      ReleaseShader(floorFs);
    }

    /** The `if (h) { vkDestroy…(h); h = VK_NULL_HANDLE; }` statements of releaseResources for the materials' objects and the pipeline cache. */
    method ReleasePipelineHandles()
      requires Valid()
      modifies this`itemMaterial, this`floorMaterial, this`pipelineCache, this`destroyed
      ensures Valid() && itemMaterial.Released() && floorMaterial.Released() && pipelineCache == Null
      ensures destroyed == old(destroyed) + old(PipelineTeardown())
      ensures itemMaterial == old(itemMaterial).(descriptorSetLayout := Null, descriptorPool := Null,
                                                pipeline := Null, pipelineLayout := Null)
    {
      destroyed := destroyed + PipelineTeardown();
      itemMaterial := itemMaterial.(descriptorSetLayout := Null, descriptorPool := Null,
                                    pipeline := Null, pipelineLayout := Null);
      floorMaterial := FloorMaterial(Null, Null);
      pipelineCache := Null;
    }

    /** The same statements for the buffers, their memory, the instance buffer and its memory. */
    method ReleaseBufferHandles()
      requires Valid()
      modifies this`buffers, this`instBuf, this`instBufMem, this`destroyed
      ensures Valid() && buffers.Released() && instBuf == Null && instBufMem == Null
      ensures destroyed == old(destroyed) + old(BufferTeardown())
    {
      destroyed := destroyed + BufferTeardown();
      buffers := SharedBuffers(Null, Null, Null, Null, Null);
      instBuf, instBufMem := Null, Null;
    }

    /** `if (s.isValid()) { vkDestroyShaderModule(s.data()->shaderModule); s.reset(); }` */
    method ReleaseShader(s: Shader)
      modifies s`data, s`joins, s`maybeRunning, this`destroyed
      ensures destroyed == old(destroyed) + Kept(old(s.Current()).shaderModule)
      ensures !s.Current().IsValid()
    {
      var valid := s.IsValid();
      if valid {
        var d := s.Data();
        destroyed := destroyed + [d.shaderModule];
        s.Reset();
      }
    }

    // -------------------------------------------------------------------------
    // Frames

    /**
     * renderer.cpp `startNextFrame`: only when no frame is pending; mark one
     * pending and build it (on a worker thread in the source).
     */
    method StartNextFrame(input: FrameInput)
      requires Valid() && !framePending && UniformSizesSet()
      requires input.currentFrame < concurrentFrameCount
      requires buffers.blockVertex == Null ==> RequirementsHold(input.requirements)
      requires !(instCount == preparedInstCount && instBuf != Null) ==> instCount <= MAX_INSTANCES
      modifies this`framePending, this`framesStarted
      modifies this`buffers, this`itemMaterial, this`nextHandle, this`allocation
      modifies this`instBuf, this`instBufMem, this`instData, this`preparedInstCount, this`records
      modifies this`instanceUploads, this`mappedCopies, this`commands, this`rotation, this`vpDirty, this`uniformWrites
      ensures Valid() && framePending && framesStarted == old(framesStarted) + 1
      ensures frameReadyCount == old(frameReadyCount)
      ensures commands == old(commands) + FrameCommands(FloorCommands(), ItemCommands(FrameUniOffset(input.currentFrame)))
      ensures preparedInstCount == instCount
      ensures BuffersEnsured(input.requirements, MeshByteCount(blockVertexCount), MeshByteCount(logoVertexCount),
                             old(nextHandle), old(buffers), old(itemMaterial), old(allocation),
                             buffers, itemMaterial, allocation)
      ensures InstanceBufferEnsured(old(instCount == preparedInstCount && instBuf != Null),
                                    old(nextHandle) + (if old(buffers.blockVertex) == Null then 5 else 0),
                                    old(instBuf), old(instBufMem), nextHandle, instBuf, instBufMem)
      ensures InstancesEnsured(input.gen, old(instCount == preparedInstCount && instBuf != Null), old(preparedInstCount),
                               old(records), old(instanceUploads), old(mappedCopies),
                               instCount, records, instData, instanceUploads, mappedCopies)
      ensures ItemsUniformsStepped(U.ItemsUniformStep(animating, old(vpDirty), old(rotation)), old(uniformWrites),
                                   rotation, vpDirty, uniformWrites, itemMaterial, allocation.size, lightPos,
                                   input.currentFrame, input.matrices)
    {
      framePending := true;
      framesStarted := framesStarted + 1;
      BuildFrame(input);
    }

    /** What the device must report for the buffers ensureBuffers creates (Vulkan guarantees the sizes). */
    predicate RequirementsHold(r: BufferRequirements)
      reads this`itemMaterial
    {
      AlignmentsArePowersOfTwo(r) && FitsIn64(r)
      && r.block.size >= MeshByteCount(blockVertexCount)
      && r.logo.size >= MeshByteCount(logoVertexCount)
      && r.floor.size >= QuadVertByteSize()
      && r.uniform.size >= U.UniformBufferSize(itemMaterial.vertUniSize, itemMaterial.fragUniSize, concurrentFrameCount)
    }

    /**
     * renderer.cpp `buildFrame`: make sure the buffers and the instance data
     * exist, then record one render pass that draws the floor and then the items.
     */
    method BuildFrame(input: FrameInput)
      requires Valid() && UniformSizesSet()
      requires input.currentFrame < concurrentFrameCount
      requires buffers.blockVertex == Null ==> RequirementsHold(input.requirements)
      requires !(instCount == preparedInstCount && instBuf != Null) ==> instCount <= MAX_INSTANCES
      modifies this`buffers, this`itemMaterial, this`nextHandle, this`allocation
      modifies this`instBuf, this`instBufMem, this`instData, this`preparedInstCount, this`records
      modifies this`instanceUploads, this`mappedCopies, this`commands, this`rotation, this`vpDirty, this`uniformWrites
      ensures Valid()
      ensures commands == old(commands) + FrameCommands(FloorCommands(), ItemCommands(FrameUniOffset(input.currentFrame)))
      ensures preparedInstCount == instCount
      ensures BuffersEnsured(input.requirements, MeshByteCount(blockVertexCount), MeshByteCount(logoVertexCount),
                             old(nextHandle), old(buffers), old(itemMaterial), old(allocation),
                             buffers, itemMaterial, allocation)
      ensures InstanceBufferEnsured(old(instCount == preparedInstCount && instBuf != Null),
                                    old(nextHandle) + (if old(buffers.blockVertex) == Null then 5 else 0),
                                    old(instBuf), old(instBufMem), nextHandle, instBuf, instBufMem)
      ensures InstancesEnsured(input.gen, old(instCount == preparedInstCount && instBuf != Null), old(preparedInstCount),
                               old(records), old(instanceUploads), old(mappedCopies),
                               instCount, records, instData, instanceUploads, mappedCopies)
      ensures ItemsUniformsStepped(U.ItemsUniformStep(animating, old(vpDirty), old(rotation)), old(uniformWrites),
                                   rotation, vpDirty, uniformWrites, itemMaterial, allocation.size, lightPos,
                                   input.currentFrame, input.matrices)
    {
      EnsureFrameResources(input);
      RecordEnsuredFrame(input, old(Snapshot()));
    }

    /** The fields a frame build reads or changes, as one value. */
    ghost function Snapshot(): FrameSnapshot
      reads this
    {
      FrameSnapshot(instCount == preparedInstCount && instBuf != Null, nextHandle, buffers, itemMaterial, allocation,
                    instBuf, instBufMem, preparedInstCount, records, instanceUploads, mappedCopies,
                    vpDirty, rotation, uniformWrites, commands)
    }

    /**
     * The recording half of buildFrame, once EnsureFrameResources has taken
     * the renderer from the fields in `s` to the current ones: it records the
     * frame and leaves the resources' effect as it found it.
     */
    method RecordEnsuredFrame(input: FrameInput, ghost s: FrameSnapshot)
      requires Valid() && input.currentFrame < concurrentFrameCount
      requires BuffersEnsured(input.requirements, MeshByteCount(blockVertexCount), MeshByteCount(logoVertexCount),
                             s.nextHandle, s.buffers, s.itemMaterial, s.allocation,
                             buffers, itemMaterial, allocation)
      requires InstanceBufferEnsured(s.wasReady, s.nextHandle + (if s.buffers.blockVertex == Null then 5 else 0),
                                    s.instBuf, s.instBufMem, nextHandle, instBuf, instBufMem)
      requires InstancesEnsured(input.gen, s.wasReady, s.preparedInstCount, s.records, s.instanceUploads,
                                s.mappedCopies, instCount, records, instData, instanceUploads, mappedCopies)
      requires vpDirty == s.vpDirty && rotation == s.rotation && uniformWrites == s.uniformWrites
      requires commands == s.commands
      modifies this`commands, this`rotation, this`vpDirty, this`uniformWrites
      ensures Valid()
      ensures commands == s.commands + FrameCommands(FloorCommands(), ItemCommands(FrameUniOffset(input.currentFrame)))
      ensures BuffersEnsured(input.requirements, MeshByteCount(blockVertexCount), MeshByteCount(logoVertexCount),
                             s.nextHandle, s.buffers, s.itemMaterial, s.allocation,
                             buffers, itemMaterial, allocation)
      ensures InstanceBufferEnsured(s.wasReady, s.nextHandle + (if s.buffers.blockVertex == Null then 5 else 0),
                                    s.instBuf, s.instBufMem, nextHandle, instBuf, instBufMem)
      ensures InstancesEnsured(input.gen, s.wasReady, s.preparedInstCount, s.records, s.instanceUploads,
                               s.mappedCopies, instCount, records, instData, instanceUploads, mappedCopies)
      ensures ItemsUniformsStepped(U.ItemsUniformStep(animating, s.vpDirty, s.rotation), s.uniformWrites,
                                   rotation, vpDirty, uniformWrites, itemMaterial, allocation.size, lightPos,
                                   input.currentFrame, input.matrices)
    {
      RecordFrame(input.currentFrame, input.matrices);
    }

    /** The first half of buildFrame: ensureBuffers, then ensureInstanceBuffer. */
    method EnsureFrameResources(input: FrameInput)
      requires Valid() && UniformSizesSet()
      requires buffers.blockVertex == Null ==> RequirementsHold(input.requirements)
      requires !(instCount == preparedInstCount && instBuf != Null) ==> instCount <= MAX_INSTANCES
      modifies this`buffers, this`itemMaterial, this`nextHandle, this`allocation
      modifies this`instBuf, this`instBufMem, this`instData, this`preparedInstCount, this`records
      modifies this`instanceUploads, this`mappedCopies
      ensures Valid() && buffers.blockVertex != Null && instBuf != Null && preparedInstCount == instCount
      ensures BuffersEnsured(input.requirements, MeshByteCount(blockVertexCount), MeshByteCount(logoVertexCount),
                             old(nextHandle), old(buffers), old(itemMaterial), old(allocation),
                             buffers, itemMaterial, allocation)
      ensures InstanceBufferEnsured(old(instCount == preparedInstCount && instBuf != Null),
                                    old(nextHandle) + (if old(buffers.blockVertex) == Null then 5 else 0),
                                    old(instBuf), old(instBufMem), nextHandle, instBuf, instBufMem)
      ensures InstancesEnsured(input.gen, old(instCount == preparedInstCount && instBuf != Null), old(preparedInstCount),
                               old(records), old(instanceUploads), old(mappedCopies),
                               instCount, records, instData, instanceUploads, mappedCopies)
    {
      EnsureBuffers(input.requirements);
      EnsureInstanceBuffer(input.gen);
    }

    /** The recording half of buildFrame: the render pass with the floor's and the items' draws. */
    method RecordFrame(currentFrame: nat, m: Matrices)
      requires Valid() && buffers.blockVertex != Null && currentFrame < concurrentFrameCount
      modifies this`commands, this`rotation, this`vpDirty, this`uniformWrites
      ensures Valid()
      ensures commands == old(commands) + FrameCommands(FloorCommands(), ItemCommands(FrameUniOffset(currentFrame)))
      ensures ItemsUniformsStepped(U.ItemsUniformStep(animating, old(vpDirty), old(rotation)), old(uniformWrites),
                                   rotation, vpDirty, uniformWrites, itemMaterial, allocation.size, lightPos, currentFrame, m)
    {
      ghost var c0 := commands;
      commands := commands + [BeginRenderPass, SetViewport, SetScissor];
      BuildDrawCallsForFloor();
      BuildDrawCallsForItems(currentFrame, m);
      commands := commands + [EndRenderPass];
      FrameCommandsAppend(c0, FloorCommands(), ItemCommands(FrameUniOffset(currentFrame)));
    }

    /**
     * renderer.cpp `ensureBuffers`: nothing once the block vertex buffer
     * exists; otherwise create the three vertex buffers and the uniform
     * buffer, allocate one memory block for all four and bind them at the
     * computed offsets, copy the vertex data into the mapped range before the
     * uniform buffer, and point the two descriptors at the frame slot's halves.
     */
    method EnsureBuffers(r: BufferRequirements)
      requires Valid() && UniformSizesSet()
      requires buffers.blockVertex == Null ==> RequirementsHold(r)
      modifies this`buffers, this`itemMaterial, this`nextHandle, this`allocation
      ensures Valid() && buffers.blockVertex != Null
      ensures old(buffers.blockVertex) != Null ==> unchanged(this)
      ensures old(buffers.blockVertex) == Null ==>
                var l := ComputeBufferLayout(r);
                var n := old(nextHandle);
                buffers == SharedBuffers(Live(n), Live(n + 1), Live(n + 2), Live(n + 3), Live(n + 4))
                && nextHandle == n + 5
                && itemMaterial == old(itemMaterial).(uniMemStartOffset := l.uniMemStartOffset)
                && allocation.size == l.allocationSize
                && allocation.bindings == BoundRegions(r, l)
                && allocation.vertexCopies
                   == VertexCopies(l, MeshByteCount(blockVertexCount), MeshByteCount(logoVertexCount))
                && (forall i :: 0 <= i < |allocation.vertexCopies| ==>
                      allocation.vertexCopies[i].Within(0, itemMaterial.uniMemStartOffset))
                && allocation.uniformDescriptorRanges
                   == [Region(0, itemMaterial.vertUniSize), Region(itemMaterial.vertUniSize, itemMaterial.fragUniSize)]
    {
      if buffers.blockVertex != Null {
        return;
      }
      var n := nextHandle;
      var l := ComputeBufferLayout(r);
      buffers := SharedBuffers(Live(n), Live(n + 1), Live(n + 2), Live(n + 3), Live(n + 4));
      nextHandle := n + 5;
      itemMaterial := itemMaterial.(uniMemStartOffset := l.uniMemStartOffset);
      allocation := Allocation(
        l.allocationSize, BoundRegions(r, l),
        VertexCopies(l, MeshByteCount(blockVertexCount), MeshByteCount(logoVertexCount)),
        [Region(0, itemMaterial.vertUniSize), Region(itemMaterial.vertUniSize, itemMaterial.fragUniSize)]);
      BufferLayoutTight(r);
      VertexCopiesInsideMapping(r, blockVertexCount, logoVertexCount);
    }

    /**
     * renderer.cpp `ensureInstanceBuffer`: nothing when every instance is
     * prepared and the buffer exists. Otherwise create the instance buffer
     * once (sizing the CPU copy for MAX_INSTANCES records), write the records
     * of the instances not yet prepared, and upload the prepared records.
     */
    method EnsureInstanceBuffer(gen: nat -> InstanceRecord)
      requires Valid()
      requires !(instCount == preparedInstCount && instBuf != Null) ==> instCount <= MAX_INSTANCES
      modifies this`instBuf, this`instBufMem, this`nextHandle, this`instData, this`preparedInstCount
      modifies this`records, this`instanceUploads, this`mappedCopies
      ensures Valid() && instBuf != Null && preparedInstCount == instCount
      ensures old(instCount == preparedInstCount && instBuf != Null) ==> unchanged(this)
      ensures !old(instCount == preparedInstCount && instBuf != Null) ==>
                records == old(records) + Generated(gen, old(preparedInstCount), instCount)
                && instanceUploads == old(instanceUploads) + [EncodeAll(records)]
                && mappedCopies == old(mappedCopies) + [InstanceUploadAsWritten(instCount, instData)]
                && (old(instBuf) == Null ==>
                      instBuf == Live(old(nextHandle)) && instBufMem == Live(old(nextHandle) + 1)
                      && nextHandle == old(nextHandle) + 2)
                && (old(instBuf) != Null ==>
                      instBuf == old(instBuf) && instBufMem == old(instBufMem) && nextHandle == old(nextHandle))
      ensures KeepsOutside(old(instData), instData, old(preparedInstCount), instCount)
    {
      if instCount == preparedInstCount && instBuf != Null {
        return;
      }
      if instBuf == Null {
        AllocateInstanceBuffer();
      }
      PrepareAndUpload(gen);
    }

    /** The rest of ensureInstanceBuffer once the buffer exists: write the missing records, then copy them up. */
    method PrepareAndUpload(gen: nat -> InstanceRecord)
      requires Valid() && instBuf != Null && instCount <= MAX_INSTANCES
      modifies this`instData, this`preparedInstCount, this`records, this`instanceUploads, this`mappedCopies
      ensures Valid() && preparedInstCount == instCount
      ensures records == old(records) + Generated(gen, old(preparedInstCount), instCount)
      ensures instanceUploads == old(instanceUploads) + [EncodeAll(records)]
      ensures mappedCopies == old(mappedCopies) + [InstanceUploadAsWritten(instCount, instData)]
      ensures KeepsOutside(old(instData), instData, old(preparedInstCount), instCount)
    {
      PrepareInstances(gen);
      UploadInstances();
    }

    /**
     * The one-time setup of ensureInstanceBuffer: size the CPU copy for
     * MAX_INSTANCES records and create the buffer and its memory.
     */
    method AllocateInstanceBuffer()
      requires Valid() && instBuf == Null
      modifies this`instData, this`instBuf, this`instBufMem, this`nextHandle
      ensures Valid() && |instData| == INSTANCE_BUFFER_BYTES
      ensures instBuf == Live(old(nextHandle)) && instBufMem == Live(old(nextHandle) + 1)
      ensures nextHandle == old(nextHandle) + 2
      ensures instData[..|old(instData)|] == old(instData)
      ensures |old(instData)| == INSTANCE_BUFFER_BYTES ==> instData == old(instData)
    {
      var data := ResizeForMaxInstances(instData);
      GrowKeepsRecords(instData, data, records);
      instData := data;
      instBuf, instBufMem := Live(nextHandle), Live(nextHandle + 1);
      nextHandle := nextHandle + 2;
    }

    /** ensureInstanceBuffer, `if (mInstCount != mPreparedInstCount)`: write the new records and count them prepared. */
    method PrepareInstances(gen: nat -> InstanceRecord)
      requires Valid() && instBuf != Null && instCount <= MAX_INSTANCES
      modifies this`instData, this`preparedInstCount, this`records
      ensures Valid() && preparedInstCount == instCount
      ensures records == old(records) + Generated(gen, old(preparedInstCount), instCount)
      ensures instData == old(instData)[..old(preparedInstCount) * PER_INSTANCE_DATA_SIZE]
                          + EncodeAll(Generated(gen, old(preparedInstCount), instCount))
                          + old(instData)[instCount * PER_INSTANCE_DATA_SIZE..]
      ensures KeepsOutside(old(instData), instData, old(preparedInstCount), instCount)
    {
      ghost var added := Generated(gen, preparedInstCount, instCount);
      if instCount != preparedInstCount {
        WriteRecordsExtends(instData, records, instCount, gen);
        var data := WriteRecords(instData, preparedInstCount, instCount, gen);
        instData, preparedInstCount, records := data, instCount, records + added;
      } else {
        assert added == [];
        NothingToWrite(instData, instCount * PER_INSTANCE_DATA_SIZE);
      }
    }

    /**
     * The end of ensureInstanceBuffer: map the instance buffer and copy the
     * prepared records in. `instanceUploads` receives the corrected copy, the
     * bytes the mapping covers; `mappedCopies` receives the mapped and copied
     * sizes as the source writes them, where the copy overruns the mapping.
     */
    method UploadInstances()
      requires Valid() && preparedInstCount == instCount && instBuf != Null
      modifies this`instanceUploads, this`mappedCopies
      ensures Valid()
      ensures instanceUploads == old(instanceUploads) + [EncodeAll(records)]
      ensures mappedCopies == old(mappedCopies) + [InstanceUploadAsWritten(instCount, instData)]
      ensures instCount < MAX_INSTANCES ==>
                mappedCopies[|mappedCopies| - 1].copiedBytes
                >= mappedCopies[|mappedCopies| - 1].mappedBytes + PER_INSTANCE_DATA_SIZE
    {
      InstanceUploadIsRecords(records, instData);
      instanceUploads := instanceUploads + [InstanceUpload(instCount, instData)];
      if instCount < MAX_INSTANCES {
        AsWrittenUploadOverrunsMapping(instCount, instData);
      }
      mappedCopies := mappedCopies + [InstanceUploadAsWritten(instCount, instData)];
    }

    /**
     * renderer.cpp `buildDrawCallsForItems`: bind the item pipeline and
     * buffers with the frame's dynamic offsets, advance the rotation when
     * animating, rewrite the frame's uniform slot when animating or dirty,
     * then draw every instance.
     */
    method BuildDrawCallsForItems(currentFrame: nat, m: Matrices)
      requires Valid() && buffers.blockVertex != Null && currentFrame < concurrentFrameCount
      modifies this`commands, this`rotation, this`vpDirty, this`uniformWrites
      ensures Valid()
      ensures ItemsUniformsStepped(U.ItemsUniformStep(animating, old(vpDirty), old(rotation)), old(uniformWrites),
                                   rotation, vpDirty, uniformWrites, itemMaterial, allocation.size, lightPos, currentFrame, m)
      ensures var offset := FrameUniOffset(currentFrame);
              commands == old(commands) + ItemCommands(offset)
              && offset == currentFrame * (itemMaterial.vertUniSize + itemMaterial.fragUniSize)
              && offset % uniformAlignment == 0
    {
      SlotFacts(currentFrame);
      // The uniform write goes to mapped memory and the binds to the command
      // buffer, two separate effects; the write is made first here.
      UpdateItemsUniforms(currentFrame, m);
      var frameUniOffset := FrameUniOffset(currentFrame);
      ghost var c0 := commands;
      commands := commands + [BindPipeline(itemMaterial.pipeline), BindVertexBuffer(0, ItemVertexBuffer()),
                              BindVertexBuffer(1, instBuf),
                              BindDescriptorSet(itemMaterial.descriptorSet, [frameUniOffset, frameUniOffset])];
      commands := commands + [Draw(ItemVertexCount(), instCount)];
      ItemCommandsAppend(c0, itemMaterial.pipeline, ItemVertexBuffer(), instBuf, itemMaterial.descriptorSet,
                         frameUniOffset, ItemVertexCount(), instCount);
    }

    /**
     * renderer.cpp, buildDrawCallsForItems: step the animation and rewrite
     * the frame's uniform slot when animating or when the frame is dirty.
     */
    method UpdateItemsUniforms(currentFrame: nat, m: Matrices)
      requires Valid() && buffers.blockVertex != Null && currentFrame < concurrentFrameCount
      modifies this`rotation, this`vpDirty, this`uniformWrites
      ensures Valid()
      ensures ItemsUniformsStepped(U.ItemsUniformStep(animating, old(vpDirty), old(rotation)), old(uniformWrites),
                                   rotation, vpDirty, uniformWrites, itemMaterial, allocation.size, lightPos, currentFrame, m)
    {
      var upload := StepItemsUniforms();
      if upload {
        WriteFrameSlot(currentFrame, m);
      }
    }

    /**
     * renderer.cpp, buildDrawCallsForItems: advance the rotation while
     * animating; report whether the slot is to be rewritten, counting a dirty
     * frame as done when it is.
     */
    method StepItemsUniforms() returns (upload: bool)
      requires Valid()
      modifies this`rotation, this`vpDirty
      ensures Valid()
      ensures var s := U.ItemsUniformStep(animating, old(vpDirty), old(rotation));
              rotation == s.rotation && vpDirty == s.vpDirty && upload == s.upload
    {
      if animating {
        rotation := rotation + 0.5;
      }
      upload := animating || vpDirty != 0;
      if upload && vpDirty != 0 {
        vpDirty := vpDirty - 1;
      }
    }

    /** renderer.cpp, buildDrawCallsForItems: map the frame's slot, write both uniform blocks, unmap. */
    method WriteFrameSlot(currentFrame: nat, m: Matrices)
      requires Valid() && buffers.blockVertex != Null && currentFrame < concurrentFrameCount
      modifies this`uniformWrites
      ensures |uniformWrites| == |old(uniformWrites)| + 1
      ensures uniformWrites[..|old(uniformWrites)|] == old(uniformWrites)
      ensures IsFrameSlotWrite(uniformWrites[|old(uniformWrites)|], itemMaterial, allocation.size, lightPos, currentFrame, m)
    {
      var v, f := itemMaterial.vertUniSize, itemMaterial.fragUniSize;
      var frameUniOffset := FrameUniOffset(currentFrame);
      SlotFacts(currentFrame);
      var vertexStores := U.VertexStores(m.vp, m.model, m.modelNormal);
      var fragStores := U.WriteFragUni(v, m.eyePos, lightPos);
      U.SlotStoresInsideMapping(uniformAlignment, v, f, m.vp, m.model, m.modelNormal, fragStores);
      uniformWrites := uniformWrites
        + [UniformWrite(itemMaterial.uniMemStartOffset + frameUniOffset, v + f, vertexStores + fragStores)];
    }

    /** The frame's slot: its offset, alignment and place inside the allocation. */
    lemma SlotFacts(currentFrame: nat)
      requires Valid() && buffers.blockVertex != Null && currentFrame < concurrentFrameCount
      ensures FrameUniOffset(currentFrame) == currentFrame * (itemMaterial.vertUniSize + itemMaterial.fragUniSize)
      ensures FrameUniOffset(currentFrame) % uniformAlignment == 0
      ensures itemMaterial.uniMemStartOffset + FrameUniOffset(currentFrame)
                + itemMaterial.vertUniSize + itemMaterial.fragUniSize <= allocation.size
    {
      var v, f, n := itemMaterial.vertUniSize, itemMaterial.fragUniSize, concurrentFrameCount;
      assert v + f < 1024;
      MulMonotone(n, MAX_CONCURRENT_FRAME_COUNT, v + f);
      assert (v + f) * n < U32_LIMIT;
      U.FrameSlotInsideUniformBuffer(currentFrame, n, v, f);
      MulMonotone(currentFrame, n, v + f);
      U.FrameUniOffsetAligned(currentFrame, uniformAlignment, v, f);
    }

    /** renderer.cpp `buildDrawCallsForFloor`. */
    method BuildDrawCallsForFloor()
      modifies this`commands
      ensures commands == old(commands) + FloorCommands()
    {
      commands := commands + [BindPipeline(floorMaterial.pipeline), BindVertexBuffer(0, buffers.floorVertex)];
      commands := commands + [PushConstants(0, 64), PushConstants(64, 12)];
      commands := commands + [Draw(FLOOR_VERTEX_COUNT, 1)];
    }

    // -------------------------------------------------------------------------
    // Input from the window

    /** renderer.cpp `addNew`: 16 more instances, capped at MAX_INSTANCES. */
    method AddNew()
      requires Valid()
      modifies this`instCount
      ensures Valid() && instCount == GrownInstanceCount(old(instCount))
    {
      instCount := GrownInstanceCount(instCount);
    }

    /** renderer.cpp `yaw`: turn the camera and mark the view-projection dirty. */
    method Yaw(degrees: real, rotate: Rotator)
      requires Valid()
      modifies cam`yaw, cam`yawMatrix, cam`forward, cam`right, this`vpDirty
      ensures Valid() && vpDirty == concurrentFrameCount
      ensures cam.yaw == Clamp360(old(cam.yaw) + degrees) && cam.yawMatrix == Rotation(cam.yaw, YAW_AXIS)
      ensures cam.forward == rotate(FORWARD, cam.pitchMatrix, cam.yawMatrix)
      ensures cam.right == rotate(RIGHT, cam.pitchMatrix, cam.yawMatrix)
      ensures old(cam.AnglesInRange()) && -360.0 <= degrees <= 360.0 ==> cam.AnglesInRange()
    {
      cam.Yaw(degrees, rotate);
      MarkViewProjDirty();
    }

    /** renderer.cpp `pitch`. */
    method Pitch(degrees: real, rotate: Rotator)
      requires Valid()
      modifies cam`pitch, cam`pitchMatrix, cam`forward, cam`up, this`vpDirty
      ensures Valid() && vpDirty == concurrentFrameCount
      ensures cam.pitch == Clamp360(old(cam.pitch) + degrees) && cam.pitchMatrix == Rotation(cam.pitch, PITCH_AXIS)
      ensures cam.forward == rotate(FORWARD, cam.pitchMatrix, cam.yawMatrix)
      ensures cam.up == rotate(UP, cam.pitchMatrix, cam.yawMatrix)
      ensures old(cam.AnglesInRange()) && -360.0 <= degrees <= 360.0 ==> cam.AnglesInRange()
    {
      cam.Pitch(degrees, rotate);
      MarkViewProjDirty();
    }

    /** renderer.cpp `walk`. */
    method Walk(amount: real)
      requires Valid()
      modifies cam`pos, this`vpDirty
      ensures Valid() && vpDirty == concurrentFrameCount
      ensures cam.pos == Vec3(old(cam.pos).x + amount * cam.forward.x, old(cam.pos).y, old(cam.pos).z + amount * cam.forward.z)
    {
      cam.Walk(amount);
      MarkViewProjDirty();
    }

    /** renderer.cpp `strafe`. */
    method Strafe(amount: real)
      requires Valid()
      modifies cam`pos, this`vpDirty
      ensures Valid() && vpDirty == concurrentFrameCount
      ensures cam.pos == Vec3(old(cam.pos).x + amount * cam.right.x, old(cam.pos).y, old(cam.pos).z + amount * cam.right.z)
    {
      cam.Strafe(amount);
      MarkViewProjDirty();
    }

    /** renderer.cpp `setUseLogo`: switch meshes; a still scene needs an update requested. */
    method SetUseLogo(b: bool)
      modifies this`useLogo, this`updateRequests
      ensures useLogo == b
      ensures updateRequests == old(updateRequests) + (if animating then 0 else 1)
    {
      useLogo := b;
      if !animating {
        updateRequests := updateRequests + 1;
      }
    }

    /** renderer.h `animating()`. */
    method Animating() returns (a: bool)
      ensures a == animating
    {
      a := animating;
    }

    /** renderer.h `setAnimating()`. */
    method SetAnimating(a: bool)
      modifies this`animating
      ensures animating == a
    {
      animating := a;
    }

    /** renderer.h `instanceCount()`. */
    method InstanceCount() returns (n: nat)
      ensures n == instCount
    {
      n := instCount;
    }
  }

  /** With no record to write, the byte copy is its prefix and suffix around an empty write. */
  lemma NothingToWrite(data: seq<byte>, n: nat)
    requires n <= |data|
    ensures data == data[..n] + EncodeAll([]) + data[n..]
  {
    assert EncodeAll([]) == [];
  }

  /** Recording the render pass piece by piece appends FrameCommands. */
  lemma FrameCommandsAppend(c0: seq<Command>, floor: seq<Command>, items: seq<Command>)
    ensures c0 + [BeginRenderPass, SetViewport, SetScissor] + floor + items + [EndRenderPass]
            == c0 + FrameCommands(floor, items)
  {
    var prefix := [BeginRenderPass, SetViewport, SetScissor];
    assert c0 + prefix + floor + items + [EndRenderPass] == c0 + (prefix + floor + items + [EndRenderPass]);
  }

  /** Recording the bindings and then the draw appends ItemCommandsOf. */
  lemma ItemCommandsAppend(c0: seq<Command>, pipeline: Handle, meshBuf: Handle, instBuf: Handle,
                           descriptorSet: Handle, frameUniOffset: nat, vertexCount: nat, instanceCount: nat)
    ensures c0 + [BindPipeline(pipeline), BindVertexBuffer(0, meshBuf), BindVertexBuffer(1, instBuf),
                  BindDescriptorSet(descriptorSet, [frameUniOffset, frameUniOffset])]
               + [Draw(vertexCount, instanceCount)]
            == c0 + ItemCommandsOf(pipeline, meshBuf, instBuf, descriptorSet, frameUniOffset, vertexCount, instanceCount)
  {
  }

  /** buildFrame records exactly two draws, inside one render pass: the floor's, then the items'. */
  lemma FloorDrawnBeforeItems(floorPipeline: Handle, floorBuf: Handle, itemPipeline: Handle, meshBuf: Handle,
                              instBuf: Handle, descriptorSet: Handle, frameUniOffset: nat,
                              vertexCount: nat, instanceCount: nat)
    ensures var c := FrameCommands(FloorCommandsOf(floorPipeline, floorBuf),
                                   ItemCommandsOf(itemPipeline, meshBuf, instBuf, descriptorSet,
                                                  frameUniOffset, vertexCount, instanceCount));
            |c| == 14 && c[0] == BeginRenderPass && c[13] == EndRenderPass
            && c[7] == Draw(FLOOR_VERTEX_COUNT, 1) && c[12] == Draw(vertexCount, instanceCount)
            && (forall k :: 0 <= k < |c| && c[k].Draw? ==> k == 7 || k == 12)
            && c[11] == BindDescriptorSet(descriptorSet, [frameUniOffset, frameUniOffset])
  {
  }
}
