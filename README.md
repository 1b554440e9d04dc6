# VulkanCubes renderer core in Dafny

This project models the renderer of the Qt "hellovulkancubes" example: a
`QVulkanWindowRenderer` that draws many instanced cubes (or Qt logos) above a
floor, with double or triple buffered swapchain frames. The model covers:

- **Utilities** (`utilities.dfy`, utilities.h). The `aligned` helper is
  modelled as the 64-bit bit-mask expression the header writes, and it is
  proved equal to "round up to a multiple" when no `uint64` wrap occurs. The
  file also holds the quad vertex table and the two instance constants.
- **Shaders** (`shader.dfy`, shader.h/shader.cpp). `Shader` is a class whose
  `load` starts a task. `data`, `isValid` and `reset` join that task only
  while nothing valid is cached: after a successful load they join once, and
  after a failed load every call joins again.
- **Camera** (`camera.dfy`, camera.cpp). `Camera` is a class with yaw and
  pitch wrapped by `clamp360`, plus walk and strafe. Walk and strafe move the
  position in the x/z plane only.
- **Layout** (`layout.dfy`, renderer.cpp `ensureBuffers`). It models how the
  block, logo and floor vertex buffers and the uniform buffer are placed in one
  device allocation. Each offset is proved aligned, tight and
  non-overlapping.
- **Uniforms** (`uniforms.dfy`, renderer.cpp `initResources`,
  `writeFragUni` and `buildDrawCallsForItems`).
  - The std140 layout of the vertex and fragment uniform blocks.
  - The per-frame uniform slots addressed by a dynamic offset.
  - The fragment block writer.
  - The view-projection dirty counter.
- **Instances** (`instances.dfy`, renderer.cpp `ensureInstanceBuffer` and
  `addNew`).
  - The 24-byte instance records and the loop that writes only the records not
    yet prepared.
  - The capped instance count.
  - The upload of the prepared records.
- **Renders** (`renderer.dfy`, renderer.h/renderer.cpp). The `Renderer` class
  carries:
  - its lifecycle (`initResources`, `initSwapChainResources`,
    `releaseSwapChainResources`, `releaseResources`);
  - the per-frame path (`startNextFrame`, `buildFrame`, `ensureBuffers`,
    `ensureInstanceBuffer`, `buildDrawCallsForFloor`,
    `buildDrawCallsForItems`);
  - the GUI entry points.

  Its invariant `Valid()` covers several things:
  - the instance copy starts with the prepared records;
  - no frame is reported ready that was not started;
  - the dirty counter stays in 0..frame count;
  - once the buffers exist, every frame's uniform slot lies inside the
    allocation.

Vulkan is represented by handles. Creating an object yields a fresh
`Live(n)` handle, and every destroy call is appended to `destroyed`. Recorded
commands are appended to `commands`. Copies into mapped memory are appended
to `uniformWrites` and `instanceUploads`. `mappedCopies` records, for each
instance upload, how many bytes the source maps and how many it copies.

## Model

| member | source | states |
|---|---|---|
| Utilities.QuadVertByteSize | utilities.h:6-11 | sizeof(quadVert) is 48 bytes: 12 floats |
| Utilities.QuadVertMatchesFloorDraw | utilities.h:6-11 | the quad table holds exactly the 4 vertices of 3 floats that the floor draw and its 12-byte stride consume |
| Utilities.InstanceCapacity | utilities.h:15-16 | one instance record is 24 bytes, and MAX_INSTANCES records take 393216 bytes |
| Utilities.Aligned | utilities.h:18-21 | the definition as written: `(v + byteAlign − 1) & ~(byteAlign − 1)` with every operation on uint64; what it computes is proved by AlignedRoundsDown, AlignedIsMultiple and AlignedIsRoundUp |
| Utilities.BitAnd | utilities.h:20 | a bitwise AND is at most either operand |
| Utilities.RoundUp | utilities.h:18-21 | reference definition: a multiple of a in [v, v + a) |
| Utilities.BitAndHighMask | utilities.h:20 | for y < 2^n and a power of two a ≤ 2^n, masking with 2^n − a clears exactly the low bits: y − y mod a |
| Utilities.BitAndHighMask64 | utilities.h:20 | the 64-bit case: y & ~(a − 1) rounds y down to a multiple of a |
| Utilities.AlignedRoundsDown | utilities.h:18-21 | aligned(v, a) is (v + a − 1) taken mod 2^64 and then rounded down to a multiple of a |
| Utilities.AlignedIsMultiple | utilities.h:18-21 | aligned(v, a) is a multiple of a for every v, even when the sum wraps |
| Utilities.AlignedIsRoundUp | utilities.h:18-21 | without wrap-around, aligned(v, a) is the least multiple of a at or above v |
| Utilities.AlignedBounds | utilities.h:18-21 | without wrap-around, v ≤ aligned(v, a) < v + a, and the result is a multiple of a |
| Utilities.AlignedOfMultiple | utilities.h:18-21 | a value already aligned is left unchanged |
| Utilities.RoundUpUnique | utilities.h:18-21 | the round-up is the only multiple of a in [v, v + a) |
| Utilities.AlignedIdempotent | utilities.h:18-21 | aligning twice is the same as aligning once |
| Shaders.LoadTask | shader.cpp:13-33 | the task yields a valid module exactly when the file was read and the module was created, and that module is the created one |
| Shaders.ShaderData.IsValid | shader.h:12 | the definition as written: valid exactly when the module handle is not null; LoadTask's contract and ReleaseShaders' use it to say when a module exists |
| Shaders.EmptyShaderData | shader.h:13 | the default-constructed value, a null module, so not valid; Shader's constructor, Reset and Load promise it as the cached data |
| Shaders.Observed | shader.cpp:38-39 | the data kept is the cached data or the task's result. Valid cached data, or no task that may be running, keeps the cache; the result is taken exactly when a task may be running and nothing valid is cached |
| Shaders.ObservedIdempotent | shader.cpp:36-42 | observing the shader's data a second time yields what the first observation left |
| Shaders.Shader.constructor | shader.h:25-27 | a new shader has no pending task, empty data and is not valid |
| Shaders.Shader.Data | shader.cpp:36-42 | data() joins a pending task once and caches its result. It joins only when a task is pending, and valid cached data is returned untouched |
| Shaders.Shader.IsValid | shader.h:21 | isValid() observes the data first (joining like data()), then reports whether a module is held |
| Shaders.Shader.Reset | shader.cpp:44-48 | reset() clears the data and the pending flag after joining a pending task; afterwards the shader is invalid and nothing will join |
| Shaders.Shader.Load | shader.cpp:9-34 | load() joins any earlier task, clears the data, and starts a task whose result is LoadTask; the shader then becomes valid exactly when the module was created |
| Shaders.LoadThenDataTwice | shader.cpp:9-42 | two data() calls after a load return the task's result both times. A successful load joins once; a failed one joins on each call, because invalid data is re-observed |
| Cameras.Clamp360 | camera.cpp:16-22 | values in [−360, 360] are kept; others are corrected by exactly one ±360 step, which lands in range for \|v\| ≤ 720 |
| Cameras.Clamp360SingleCorrection | camera.cpp:16-22 | a single correction: 800 becomes 440 (still out of range), and ±360 are kept |
| Cameras.AngleAfterStaysInRange | camera.cpp:24-27 | repeated turns, each by at most 360 degrees, keep the angle in [−360, 360] |
| Cameras.Camera.constructor | camera.cpp:6-14 | a new camera sits at the given position, faces −z with right +x and up +y, has zero angles and identity rotations |
| Cameras.Camera.Yaw | camera.cpp:24-34 | the yaw is the clamped sum and the yaw matrix rotates by it about y. Forward and right are the base vectors rotated by both matrices. Angles stay in range |
| Cameras.Camera.Pitch | camera.cpp:36-46 | likewise for pitch about x, recomputing forward and up |
| Cameras.Camera.Walk | camera.cpp:48-52 | moves the position along forward in x and z only, with y unchanged |
| Cameras.Camera.Strafe | camera.cpp:54-58 | moves the position along right in x and z only, with y unchanged |
| Cameras.WalkThenStrafeFromStart | camera.cpp:48-58 | from the renderer's starting camera (0, 0, 20), walking 1 and strafing 1 reaches (1, 0, 19) |
| Layout.ComputeBufferLayout | renderer.cpp:584-590 | the definition as written: each start offset is the previous end aligned for the next buffer, and the size is the uniform offset plus the uniform size, all in uint64; its properties are the Layout lemmas below |
| Layout.MeshByteCount | renderer.cpp:541-552 | the definition as written: vertexCount·8·sizeof(float) bytes; RequirementsHold bounds the block and logo buffers by it and VertexCopiesInsideMapping places copies of that size |
| Layout.BoundRegions | renderer.cpp:597-608 | the definition as written: the block buffer at 0 and the logo, floor and uniform buffers at the three computed offsets, each with its required size; BoundRegionsFitAllocation proves them ordered, disjoint, aligned and inside the allocation |
| Layout.VertexCopies | renderer.cpp:612-617 | the definition as written: the block mesh at 0, the logo mesh at its offset and the quad at the floor's; VertexCopiesInsideMapping proves them disjoint and inside the mapped range |
| Layout.BufferOffsetsAligned | renderer.cpp:584-586 | every buffer start offset is a multiple of that buffer's alignment, even when a uint64 sum wraps |
| Layout.AlignStepBounds | renderer.cpp:584-586 | without wrap, each step places the next buffer at the first aligned offset at or after the end of the previous one |
| Layout.BufferLayoutTight | renderer.cpp:584-590 | the logo, floor and uniform buffers each start at the first aligned offset after the previous buffer, and the allocation ends with the uniform buffer |
| Layout.LogoOffsetTight | renderer.cpp:584 | the logo buffer starts at the first offset aligned for it after the block buffer |
| Layout.FloorOffsetTight | renderer.cpp:585 | the floor buffer starts at the first offset aligned for it after the logo buffer |
| Layout.UniformOffsetTight | renderer.cpp:586 | the uniform buffer starts at the first offset aligned for it after the floor buffer |
| Layout.AllocationEndsWithUniforms | renderer.cpp:586-590 | the allocation size is the uniform offset plus the uniform buffer's size |
| Layout.BoundRegionsFitAllocation | renderer.cpp:597-608 | the four bound ranges are ordered, do not overlap, are correctly aligned and lie inside the allocation |
| Layout.VertexCopiesInsideMapping | renderer.cpp:612-618 | the three vertex copies are pairwise disjoint and fall inside the mapped range [0, uniMemStartOffset) |
| Uniforms.VertUniSize | renderer.cpp:67 | the definition as written: aligned(2·64 + 48, alignment); UniformSizesHoldBlocks proves what it holds |
| Uniforms.FragUniSize | renderer.cpp:68 | the definition as written: aligned(6·16 + 12 + 2·4, alignment); UniformSizesHoldBlocks proves what it holds |
| Uniforms.UniformBufferSize | renderer.cpp:574 | the definition as written: (vertUniSize + fragUniSize)·frameCount in uint64; FrameSlotInsideUniformBuffer places every slot inside it |
| Uniforms.FrameUniOffset | renderer.cpp:853 | the definition as written: currentFrame·(v + f) computed in uint64 and truncated to uint32; FrameSlotInsideUniformBuffer and FrameUniOffsetAligned prove it exact and aligned |
| Uniforms.VertexStores | renderer.cpp:880-885 | the definition as written: mvp at 0, model at 64, the normal matrix's three columns at 128, 144, 160; VertexStoresFollowStd140 ties them to the std140 layout |
| Uniforms.Std140Offsets | renderer.cpp:67-68 | std140 gives one offset per block member |
| Uniforms.VertexBlockLayout | renderer.cpp:67 | the vertex block (mat4, mat4, mat3) has std140 offsets 0, 64, 128 and ends at 176 = 2·64 + 48 |
| Uniforms.FragmentBlockLayout | renderer.cpp:68 | the fragment block (7 vec3, 2 float) has std140 offsets 0, 16, …, 96, 108, 112 and ends at 116 = 6·16 + 12 + 2·4 |
| Uniforms.FragmentBlockLayoutFrom | renderer.cpp:740-779 | the same layout holds from any 16-aligned base, such as the fragment block's place after the vertex block |
| Uniforms.UniformSizesHoldBlocks | renderer.cpp:67-68 | each aligned size holds its block, is a multiple of the alignment, and wastes less than one alignment |
| Uniforms.SlotSizesUnique | renderer.cpp:67-68 | those bounds determine the two sizes |
| Uniforms.FrameSlotInsideUniformBuffer | renderer.cpp:853 | when the slots fit in 32 bits, the uint32 dynamic offset is currentFrame·(v + f), and the frame's slot lies inside the uniform buffer of frameCount slots |
| Uniforms.FrameUniOffsetAligned | renderer.cpp:853-856 | the dynamic offset is a multiple of the device's uniform alignment |
| Uniforms.VertexStoresFollowStd140 | renderer.cpp:880-885 | the mvp, model and model-normal stores follow the std140 layout, one after another, ending at byte 172 inside the block |
| Uniforms.WriteFragUni | renderer.cpp:740-779 | the stores are exactly the fragment block's std140 layout from the base, ending at base + 116. They hold the eye and light positions and the fixed material and attenuation parameters |
| Uniforms.SlotStoresInsideMapping | renderer.cpp:872-889 | vertex stores stay in [0, v) and fragment stores in [v, v + f); every store lies inside the mapped range of the slot |
| Uniforms.ItemsUniformStep | renderer.cpp:858-863 | rotation advances by 0.5 only while animating; a slot is written exactly when animating or dirty; the dirty counter counts down to 0 and never goes negative |
| Uniforms.UploadsWhileStillExact | renderer.cpp:858-863 | after a mark with the frame count n, and with the animation paused, exactly the next n frames rewrite their slot |
| Instances.Encode | renderer.cpp:706-711 | a record is 24 bytes: translate at 0, diffuse adjustment at 12 |
| Instances.EncodeAll | renderer.cpp:698-712 | the records' bytes have length 24 times their number |
| Instances.Generated | renderer.cpp:698-712 | the records for indices from..to−1 are gen(from + k), in order |
| Instances.EncodeAllAppend | renderer.cpp:698-712 | encoding distributes over concatenation |
| Instances.EncodeAllHoldsRecords | renderer.cpp:698-712 | record k of the encoding sits at bytes 24k..24k+24 |
| Instances.HoldsRecordsUnique | renderer.cpp:698-712 | bytes holding the same records are equal |
| Instances.StartsWithRecordsIsPrefix | renderer.cpp:698-712 | data starts with the records exactly when its prefix is their encoding |
| Instances.MemCopy | renderer.cpp:707 | memcpy puts the bytes at [offset, offset + n) and changes nothing else |
| Instances.Resized | renderer.cpp:669 | resize to a larger size keeps the old bytes as a prefix |
| Instances.CopyRecord | renderer.cpp:706-711 | the two memcpys of one record replace its 24 bytes with its encoding |
| Instances.ResizeForMaxInstances | renderer.cpp:669 | the copy grows to MAX_INSTANCES records and keeps its old bytes |
| Instances.GrowKeepsRecords | renderer.cpp:669 | growing keeps the records already written |
| Instances.WriteRecords | renderer.cpp:694-713 | the loop from `from` to `to` leaves bytes before record `from` and after record `to` alone, and writes the generated records in between |
| Instances.WriteRecordsExtends | renderer.cpp:694-713 | writing the missing records extends the prepared records by exactly the generated suffix, and the earlier records stay unchanged |
| Instances.GrownInstanceCount | renderer.cpp:914-918 | addNew adds 16 up to MAX_INSTANCES, never exceeds it, and never lowers a count within the bound |
| Instances.CountAfterAddsSaturates | renderer.cpp:914-918 | k calls give min(count + 16k, MAX_INSTANCES) |
| Instances.InstanceUploadAsWritten | renderer.cpp:716-722 | the definition as written: vkMapMemory maps instCount·24 bytes and memcpy copies the whole CPU copy |
| Instances.AsWrittenUploadOverrunsMapping | renderer.cpp:716-722 | as written, the upload copies more bytes than it maps whenever fewer than MAX_INSTANCES instances exist |
| Instances.AsWrittenUploadExample | renderer.cpp:716-722 | as written, with 16 instances the code maps 384 bytes and copies 393216 |
| Instances.InstanceUpload | renderer.cpp:716-722 | corrected upload: as many bytes as are mapped, 24 times the instance count |
| Instances.InstanceUploadIsRecords | renderer.cpp:716-722 | the corrected upload is exactly the encoding of the prepared records |
| Renders.Kept | renderer.cpp:441-444 | a handle is destroyed only when it is not null |
| Renders.FloorDrawnBeforeItems | renderer.cpp:792-838 | a frame is one render pass with exactly two draws, the floor's and then the items'. The items' descriptor set is bound with the frame's offset for both dynamic bindings |
| Renders.FloorCommandsOf | renderer.cpp:897-912 | the definition as written: bind the floor pipeline and vertex buffer, push the 64-byte mvp and 12-byte colour, draw 4 vertices once; FloorDrawnBeforeItems fixes its place in the frame |
| Renders.ItemCommandsOf | renderer.cpp:840-895 | the definition as written: bind the item pipeline, the mesh buffer at binding 0 and the instance buffer at binding 1, the descriptor set with the frame's offset twice, then one instanced draw; FloorDrawnBeforeItems fixes its place in the frame |
| Renders.FrameCommands | renderer.cpp:792-838 | the definition as written: begin the pass, set viewport and scissor, the floor's commands, the items', end the pass; FrameCommandsAppend and FloorDrawnBeforeItems prove what the recorded pass holds |
| Renders.Renderer.ItemVertexBuffer | renderer.cpp:848 | the definition as written: the logo vertex buffer when useLogo, the block one otherwise; BuildDrawCallsForItems binds it at binding 0 |
| Renders.Renderer.ItemVertexCount | renderer.cpp:894 | the definition as written: the logo mesh's vertex count when useLogo, the block mesh's otherwise, which the constructor's contract ties to the counts it was given; BuildDrawCallsForItems draws that many vertices |
| Renders.Renderer.RequirementsHold | renderer.cpp:541-590 | what the first ensureBuffers relies on from the driver's memory requirements: power-of-two alignments, no uint64 wrap in the offset chain, and each buffer large enough for the mesh, quad or per-frame uniform slots copied into it; EnsureBuffers, BuildFrame and StartNextFrame require it only when the buffers do not yet exist |
| Renders.Renderer.PipelineTeardown | renderer.cpp:441-474 | the material and cache destroys are empty exactly when those handles are all null |
| Renders.Renderer.BufferTeardown | renderer.cpp:476-509 | the buffer and memory destroys are empty exactly when those handles are all null |
| Renders.Renderer.constructor | renderer.cpp:11-32 | initial state: count given, nothing prepared, not dirty, no frame pending, not animating, rotation 0, and the block and logo vertex counts are the ones passed in. Every handle is null and no shader is valid. Camera at (0, 0, 20), light at (0, 0, 25) |
| Renders.Renderer.LoadIfInvalid | renderer.cpp:71-80 | a shader that is already valid is kept; otherwise it is loaded |
| Renders.Renderer.InitResources | renderer.cpp:48-85 | starts animating and computes the uniform sizes; loads each invalid shader; creates the cache, the item material's objects and the floor's, in order |
| Renders.Renderer.BeginResources | renderer.cpp:53-68 | animation on, no frame pending, uniform sizes set |
| Renders.Renderer.StartAnimating | renderer.cpp:53-54 | animating and not pending |
| Renders.Renderer.LoadShaders | renderer.cpp:71-80 | each of the four shaders is loaded if invalid |
| Renders.Renderer.ComputeUniformSizes | renderer.cpp:67-68 | the sizes are aligned to the device's alignment, hold their blocks, and are recomputed identically on a second init |
| Renders.Renderer.CreatePipelines | renderer.cpp:88-100 | fresh handles for the cache, pool, set layout, set, item layout and pipeline, and floor layout and pipeline, in that order. The shaders are left as they were |
| Renders.Renderer.CreateItemPipeline | renderer.cpp:104-287 | the item material gets fresh pool, set layout, set, layout and pipeline handles after waiting for its two shaders |
| Renders.Renderer.CreateFloorPipeline | renderer.cpp:291-409 | the floor material gets a fresh layout and pipeline after waiting for its two shaders |
| Renders.Renderer.MarkViewProjDirty | renderer.h:52 | the dirty counter becomes the frame count |
| Renders.Renderer.InitSwapChainResources | renderer.cpp:411-417 | the projection changed: every frame slot is marked dirty |
| Renders.Renderer.ReleaseSwapChainResources | renderer.cpp:419-430 | a pending frame is waited for and reported ready once; then nothing is pending |
| Renders.Renderer.FrameFinished | renderer.cpp:25-31 | the watcher reports a pending frame ready once and requests an update; with nothing pending it does nothing |
| Renders.Renderer.ReleaseResources | renderer.cpp:432-528 | destroys every non-null handle in source order (materials, cache, buffers, memory, shader modules) and ends with nothing left. A second call destroys nothing |
| Renders.Renderer.ReleasePipelineHandles | renderer.cpp:441-474 | the materials and cache are destroyed in order and nulled |
| Renders.Renderer.ReleaseBufferHandles | renderer.cpp:476-509 | the buffers and memory are destroyed in order and nulled |
| Renders.Renderer.ReleaseShaders | renderer.cpp:511-527 | each shader that is valid has its module destroyed, in source order, and is reset; a shader that is not valid is left alone. All four end invalid |
| Renders.Renderer.ReleaseShader | renderer.cpp:511-514 | one shader's module is destroyed and the shader reset only when it is valid; either way it ends invalid |
| Renders.Renderer.StartNextFrame | renderer.cpp:781-790 | marks one frame pending and builds it, with BuildFrame's whole effect: one render pass appended, the instance records, upload and mapped copy of InstancesEnsured, and the rotation, dirty counter and slot write of ItemsUniformsStepped. On the first frame (no block buffer yet) BuffersEnsured gives the five shared buffers the next five fresh handles, sets the material's uniMemStartOffset from ComputeBufferLayout, and sets the allocation's size, bound regions, vertex copies and two uniform descriptor ranges; otherwise buffers, material and allocation are kept. InstanceBufferEnsured: the instance buffer exists afterwards, and when it was missing it takes the next two fresh handles (after the shared buffers' five on the first frame) and nextHandle advances past them. No frame is reported ready |
| Renders.Renderer.BuildFrame | renderer.cpp:792-838 | ensures the buffers and the instances, then records the floor and item draws inside one render pass. The records grow by exactly the generated ones, and the encoding of all records is uploaded (with its as-written mapped copy) unless every instance was already prepared and the instance buffer existed. The rotation and dirty counter follow ItemsUniformStep, and one write of the frame's slot is appended exactly when it uploads. On the first frame (no block buffer yet) BuffersEnsured gives the five shared buffers the next five fresh handles, sets the material's uniMemStartOffset from ComputeBufferLayout, and sets the allocation's size, bound regions, vertex copies and two uniform descriptor ranges; otherwise buffers, material and allocation are kept. InstanceBufferEnsured: the instance buffer exists afterwards, and when it was missing it takes the next two fresh handles (after the shared buffers' five on the first frame) and nextHandle advances past them |
| Renders.Renderer.EnsureFrameResources | renderer.cpp:796-797 | afterwards the buffers and the instance buffer exist and every instance is prepared; the records, uploads and mapped copies change as InstancesEnsured says. On the first frame (no block buffer yet) BuffersEnsured gives the five shared buffers the next five fresh handles, sets the material's uniMemStartOffset from ComputeBufferLayout, and sets the allocation's size, bound regions, vertex copies and two uniform descriptor ranges; otherwise buffers, material and allocation are kept. InstanceBufferEnsured: the instance buffer exists afterwards, and when it was missing it takes the next two fresh handles (after the shared buffers' five on the first frame) and nextHandle advances past them |
| Renders.Renderer.RecordEnsuredFrame | renderer.cpp:800-837 | once the resources are ensured, appends the frame's render pass and steps the item uniforms as ItemsUniformsStepped says, keeping the buffers, material, allocation, instance buffer and instance records exactly as the resource step left them |
| Renders.Renderer.RecordFrame | renderer.cpp:800-837 | appends the render pass with the floor's and the items' commands; the rotation, dirty counter and uniform writes change as ItemsUniformsStepped says |
| Renders.Renderer.EnsureBuffers | renderer.cpp:530-648 | once created, nothing changes. On first call: five fresh objects, the uniform offset of the layout, binds of the aligned regions, vertex copies inside the mapping, and the two uniform descriptor ranges |
| Renders.Renderer.EnsureInstanceBuffer | renderer.cpp:650-723 | nothing changes when every instance is prepared and the instance buffer exists. Otherwise a missing buffer is created as the next two fresh handles (nextHandle advances by two; an existing one is kept), only the missing records are generated, bytes outside them are preserved, the encoding of the prepared records is uploaded, and the as-written mapped and copied sizes are appended to mappedCopies |
| Renders.Renderer.AllocateInstanceBuffer | renderer.cpp:660-692 | the CPU copy is sized for MAX_INSTANCES and keeps its bytes; the buffer and its memory are fresh |
| Renders.Renderer.PrepareAndUpload | renderer.cpp:694-722 | with the instance buffer present, the missing records are generated after the prepared ones, all instances end prepared, the encoding of all records is uploaded, the as-written mapped and copied sizes are appended, and bytes outside the new records are untouched |
| Renders.Renderer.PrepareInstances | renderer.cpp:694-713 | the records not yet prepared are generated and written after the prepared ones; the bytes outside them are untouched |
| Renders.Renderer.UploadInstances | renderer.cpp:716-722 | the bytes uploaded are exactly the encoding of the prepared records, and mappedCopies gains the as-written sizes; with fewer than MAX_INSTANCES instances they copy at least 24 bytes more than they map |
| Renders.Renderer.BuildDrawCallsForItems | renderer.cpp:840-895 | binds the pipeline, the two vertex buffers and the descriptor set at the frame's aligned offset, steps the animation, rewrites the frame's slot exactly when animating or dirty, then draws every instance |
| Renders.Renderer.UpdateItemsUniforms | renderer.cpp:858-892 | the rotation and dirty counter follow ItemsUniformStep; a slot write is appended exactly when it uploads |
| Renders.Renderer.StepItemsUniforms | renderer.cpp:858-863 | returns whether to upload and updates the rotation and counter as ItemsUniformStep says |
| Renders.Renderer.WriteFrameSlot | renderer.cpp:864-892 | appends one write that maps the frame's slot inside the allocation. It holds the vertex stores and the fragment block (eye and light positions), all inside the mapped range |
| Renders.Renderer.SlotFacts | renderer.cpp:853-875 | the frame's offset is currentFrame·(v + f), aligned, and its slot lies inside the allocation |
| Renders.Renderer.BuildDrawCallsForFloor | renderer.cpp:897-912 | appends the floor's pipeline and vertex binds, two push constants (64-byte mvp, 12-byte colour) and one 4-vertex draw |
| Renders.Renderer.AddNew | renderer.cpp:914-918 | the count becomes GrownInstanceCount of the old one |
| Renders.Renderer.Yaw | renderer.cpp:920-925 | the camera yaws by the clamped sum, forward and right are the base vectors rotated by both matrices, the angles stay in range for a turn of at most 360 degrees, and every frame is marked dirty |
| Renders.Renderer.Pitch | renderer.cpp:927-932 | the camera pitches by the clamped sum, forward and up are the base vectors rotated by both matrices, the angles stay in range for a turn of at most 360 degrees, and every frame is marked dirty |
| Renders.Renderer.Walk | renderer.cpp:934-939 | the camera walks and every frame is marked dirty |
| Renders.Renderer.Strafe | renderer.cpp:941-946 | the camera strafes and every frame is marked dirty |
| Renders.Renderer.SetUseLogo | renderer.cpp:948-954 | switches the mesh and requests an update only when not animating |
| Renders.Renderer.Animating | renderer.h:27 | returns the animation flag |
| Renders.Renderer.SetAnimating | renderer.h:28 | sets the animation flag |
| Renders.Renderer.InstanceCount | renderer.h:30 | returns the instance count |

## Left out

- Threads, QFuture, QFutureWatcher and the GUI mutex: the work the source
  starts on another thread (shader loads, createPipelines, buildFrame) runs
  as a sequential call at the point where it starts. The model does not
  capture interleavings.
- The Vulkan calls themselves are effects on handles and recorded commands.
  The create-info contents of createItemPipeline and createFloorPipeline are
  not modelled. The qFatal paths on failed vk* calls are not modelled either:
  creation is assumed to succeed.
- Matrix and vector arithmetic (QMatrix4x4, perspective, viewMatrix, the
  rotated camera vectors) is abstracted. The matrices handed to a frame are an
  input (`Matrices`), and the camera's rotation of its base vectors is a
  function parameter (`Rotator`). Floats are `real`.
- QRandomGenerator: the random instance records come from a parameter
  `gen: nat -> InstanceRecord`.
- The GUI, the window class, mesh file loading (vertex counts are constructor
  parameters), preInitResources and the shader-file reading (its outcome is a
  `LoadOutcome` parameter).
- Device limits: the device's minUniformBufferOffsetAlignment is a
  constructor parameter, at most 256, and the swapchain frame count is 1..3.
  The memory requirements are an input to the frame.
- The timing of work on the worker threads. StartNextFrame requires that
  initResources has run (the uniform sizes are set) and that no frame is
  pending, which is the window's calling order and the source's assertion.
- Renders.Renderer.BuildDrawCallsForItems: the uniform write and the command
  binds are modelled in the opposite order from the source. They go to two
  separate recorded effects, so the result is the same.
- Renders.Renderer.constructor: renderer.h leaves descSet, vertUniSize,
  fragUniSize and uniMemStartOffset uninitialised. The model stores
  null and 0 there, but its contract promises nothing about them.
- Renders.Renderer.UploadInstances, Renders.Renderer.EnsureInstanceBuffer: the
  bytes recorded in `instanceUploads` are the corrected copy of the mapped
  instCount·24 bytes. The source's memcpy of 393216 bytes past the mapped range
  is recorded only as sizes in `mappedCopies`, since what it overwrites
  lies outside the model.
- Renders.Renderer.RequirementsHold: it includes FitsIn64, that the uint64
  sums of ensureBuffers' offsets (renderer.cpp:584-590) do not wrap. The
  source does not check this; device sizes far below 2^64 meet it.
- The uint32 dynamic offset (renderer.cpp:853) is modelled with explicit
  truncation. That it never truncates is proved only under the frame-count and
  alignment bounds above.
- Field names follow renderer.cpp (descriptorPool, descriptorSetLayout,
  descriptorSet) rather than the declarations in renderer.h (descPool,
  descSetLayout, descSet). The handles each material owns are grouped into one
  value.
- The descriptor set is not destroyed in releaseResources, because it is freed
  with its pool. The model follows that.

## Findings

| source | as written | input that shows it | evidently intended | confidence | as-written member | corrected member |
|---|---|---|---|---|---|---|
| renderer.cpp:716-722 | ensureInstanceBuffer maps instCount·24 bytes of the instance memory, then memcpys mInstData.size() bytes, which is always MAX_INSTANCES·24 = 393216 | mInstCount = 16: 384 bytes are mapped and 393216 copied | copy only the instCount·24 bytes that were mapped | not executed | Instances.InstanceUploadAsWritten, Instances.AsWrittenUploadOverrunsMapping | Instances.InstanceUploadIsRecords, Renders.Renderer.UploadInstances |
