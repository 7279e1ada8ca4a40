# A verified model of the Codotaku renderer's core

The renderer opens a window and a GPU device through SDL3. It loads a textured
mesh and draws it every frame with a rotating transform. It uses a
multisampled colour target and a depth-stencil target. Most of `src/main.cpp`
is calls into SDL. This project models the logic that sits between those calls:

- **Shader-variant resolution** (`LoadShader`). The shader stage is read off the
  file name. The compiled format is chosen from the device's format bitmask
  in the order SPIR-V, MSL, DXIL. This fixes the file path and the entry point.
  Module `Shaders`, with the device call in `App.LoadShader`.
- **Depth-stencil format probe.** D24_UNORM_S8_UINT is preferred, then
  D32_FLOAT_S8_UINT; if neither is supported, initialisation fails
  (`App.ChooseDepthStencilFormat`).
- **Image loading** (`LoadImage`). The surfaces it creates are tracked by
  handle and pixel-format tag. Each surface it does not return is destroyed
  exactly once.
- **The initial upload** (`SDL_AppInit`). One geometry staging buffer holds
  the vertex bytes followed by the index bytes. Two upload regions are taken
  from it. A second staging buffer holds the image's `pitch * h` bytes. One
  copy pass fills the vertex buffer, the index buffer and the texture. After
  submission both staging buffers are released and the surface is destroyed.
  The copies into mapped memory (`std::ranges::copy`) are loops over a byte
  array (module `Staging`).
- **Render targets on resize** (`CreateMsaaTexture`,
  `CreateDepthStencilTexture`, `SDL_AppEvent`). The `AppState` class holds the
  handles. Each target is released and then re-created at the current window
  size.
- **One frame** (`SDL_AppIterate`). It is a trace of commands on a command
  buffer. The render pass is recorded only when a swapchain texture was
  acquired. The command buffer is always submitted.
- **Mesh flattening** (`Model::Model`, module `ModelLoading`). Nested loops
  append every mesh's vertices and every face's indices to two lists.

SDL is modelled as a `Device` class (module `Sdl`). It has a map of the GPU
objects the application owns (`live`), a map of owned surfaces (`surfaces`)
and a log of every call (`log`). Releasing or destroying a handle requires that
the handle is owned. So a double release cannot verify. Whether each fallible
SDL call succeeds is a parameter. A thrown exception is an `Err` carrying its
message. Module `Protocol` states the call sequences as values and proves what
they guarantee: the command-buffer rules, release-before-create, nothing
released twice and nothing leaked.

`sizeof(Vertex)` is taken to be 20 bytes: three floats of position at offset 0,
then two floats of uv at offset 12. Vertex.h is not part of this model; the
pipeline's FLOAT3/FLOAT2 attributes (src/main.cpp:191-197) agree with this
layout. Floats are carried as 32-bit patterns and never computed with. Byte
order is that of a little-endian host.

## Model

| member | source | states |
|---|---|---|
| Shaders.ShaderStage | src/main.cpp:32-38 | a name containing ".vert" is a vertex shader even if it also contains ".frag"; otherwise ".frag" gives the fragment stage; neither gives "Unrecognized shader stage!" |
| Shaders.ContainsOccurs | src/main.cpp:33-35 | `contains` is substring search: it holds exactly when the part occurs at some position |
| Shaders.ChooseBackend | src/main.cpp:41-55 | the chosen format is supported; SPIR-V wins whenever supported, DXIL only when MSL is not; an error exactly when none of the three is supported |
| Shaders.ResolveShader | src/main.cpp:24-72 | the stage error comes before any format check; then the format error; then a missing file; on success the stage, the chosen format's flag, the file's bytes as code, entry point "main0" for MSL and "main" otherwise, and the four resource counts passed through |
| Shaders.ShaderPathLayout | src/main.cpp:46-53 | with a base path ending in a separator, the file is `<base>Content/Shaders/Compiled/<FMT>/<name><ext>` |
| Shaders.MetalOnlyVertexShader | src/main.cpp:48-51 | "Foo.vert" on an MSL-only device resolves to the vertex stage, `.../MSL/Foo.vert.msl` and entry point "main0" |
| App.LoadShader | src/main.cpp:24-75 | a resolution error is returned with the device unchanged; otherwise the shader object is created from the resolved create-info, or a null is returned when the device refuses |
| App.ChooseDepthStencilFormat | src/main.cpp:163-173 | D24_UNORM_S8_UINT whenever supported, never overridden; otherwise D32_FLOAT_S8_UINT if supported; otherwise the error; the result is always a supported depth-stencil format |
| App.AppState.ProbeDepthStencilFormat | src/main.cpp:163-173 | the probe's choice is stored in `depthStencilFormat`; on error the field is unchanged |
| App.LoadImage | src/main.cpp:77-98 | a failed load is an error; with desiredChannels != 4 the loaded surface is destroyed and then the error is raised; an ABGR8888 surface is returned as it is; any other surface is converted and destroyed exactly once; a returned non-null surface is ABGR8888 and is the only new surface |
| App.ConversionFailureReturnsNull | src/main.cpp:91-97 | as written, a failed conversion is reported as success with a null surface |
| App.LoadImageChecked | src/main.cpp:77-98 | corrected: success always yields a live ABGR8888 surface (the decoded one or its conversion); on every error path no new surface is left behind |
| App.PositionAttributeMatchesStaging | src/main.cpp:191-200 | attribute 0 (FLOAT3, slot 0, offset of position) with pitch sizeof(Vertex) reads vertex i's position from the staged vertex bytes |
| App.UvAttributeMatchesStaging | src/main.cpp:191-200 | attribute 1 (FLOAT2, slot 0, offset of uv) reads vertex i's uv from the staged vertex bytes |
| App.AttachmentInfo | src/main.cpp:101-110 | a render target's create-info has the given format, usage and sample count, one layer, one level, and the window size (cast to Uint32) |
| App.AppState.CreateMsaaTexture | src/main.cpp:100-116 | a fresh colour target in the swapchain format at the window size and the configured sample count, or the "Couldn't create GPU texture" error with a null handle |
| App.AppState.CreateDepthStencilTexture | src/main.cpp:118-134 | a fresh depth-stencil target in the probed format at the window size and the configured sample count, or the error |
| App.AppState.ReplaceMsaaTexture | src/main.cpp:393-394 | the old MSAA texture is released before its replacement is created at the new size |
| App.AppState.ReplaceDepthStencilTexture | src/main.cpp:397-398 | the old depth texture is released before its replacement is created at the new size |
| App.AppState.SwappedKeys | src/main.cpp:392-399 | swapping two owned handles for two fresh ones keeps the number of owned objects |
| App.AppState.Resize | src/main.cpp:392-399 | both targets are released once and re-created at the new width and height with the same sample count and formats; the owned set loses the old two and gains the new two, and keeps its size; only the two handle fields change |
| App.NewAppState | src/main.cpp:142 | constructing the state imports the model first: a missing scene is "Couldn't load model" and no state exists; otherwise a fresh state with null handles holding LoadModel's flattening |
| App.AppState.constructor | src/AppState.h:13-25 | every handle null, the sample count four, the depth-stencil format INVALID, and the model its member constructor produced |
| App.AppState.HandleEvent | src/main.cpp:385-405 | QUIT returns SUCCESS with nothing changed; a resize releases each target before re-creating it at the given size (the full call log), every other owned object is unchanged and the owned count is kept, and it returns CONTINUE, or the texture error after the step that failed; any other event returns CONTINUE with nothing changed |
| App.AppState.CreatePipeline | src/main.cpp:185-235 | the pipeline is created with the fixed vertex layout, depth test LESS with write, the configured sample count, the swapchain colour format and the probed depth format; it is stored only when created |
| App.AppState.CreateRenderTargets | src/main.cpp:237-238 | both targets at the window size, MSAA first; succeeds exactly when both creations do |
| App.LoadShaders | src/main.cpp:175-183 | the vertex shader (one uniform buffer) then the fragment shader (one sampler); each resolution error or null is reported with its own message |
| App.AppState.PrepareShaders | src/main.cpp:163-183 | the depth probe and then both shaders; succeeds exactly when the probe, both resolutions and both creations do |
| App.AppState.BuildPipeline | src/main.cpp:231-241 | the pipeline and both render targets are created, then both shaders are released |
| App.AppState.InitPipeline | src/main.cpp:163-241 | on success the device owns what it owned before plus the pipeline and the two render targets; the shaders exist only while the pipeline is built |
| App.AppState.InitTexture | src/main.cpp:243-267 | the sampler is created unchecked (LINEAR, CLAMP_TO_EDGE); the image is loaded with four channels by LoadImage as written; a null surface stops the model where src/main.cpp:258 reads it; otherwise the texture is created at the image's size |
| App.AppState.InitObjects | src/main.cpp:163-267 | succeeds exactly when every step up to the texture does; then both render targets, the pipeline and the texture are live |
| App.AppState.Init | src/main.cpp:163-378 | succeeds exactly when every step does; then the model is the re-imported scene flattened as written (indices unchanged), and the vertex and index buffers hold exactly its vertex and index bytes |
| App.AppState.LoadAndUpload | src/main.cpp:269-378 | the second import failing is "Couldn't load model"; otherwise LoadModel's result replaces the model and is uploaded, and every other owned object is left as it was |
| App.AppState.CreateGeometryBuffers | src/main.cpp:271-291 | the vertex buffer of |vertices| * sizeof(Vertex) bytes, then the index buffer of |indices| * 4 bytes, each checked |
| Staging.MeshVertexBytes | src/main.cpp:307-309 | the vertex bytes are |vertices| * sizeof(Vertex) long |
| Staging.MeshIndexBytes | src/main.cpp:311-315 | the index bytes are |indices| * 4 long |
| Staging.MeshVertexBytesAt | src/main.cpp:307-309 | vertex i occupies bytes [i*20, i*20+20) of the vertex bytes |
| Staging.MeshIndexBytesAt | src/main.cpp:311-315 | index j occupies bytes [j*4, j*4+4) of the index bytes |
| Staging.VertexFetch | src/main.cpp:307-309 | reading vertex i back from the staged bytes gives vertex i |
| Staging.IndexFetch | src/main.cpp:311-315 | reading index j back from the staged bytes gives index j |
| Staging.CopyBytes | src/main.cpp:332-336 | the bytes are copied verbatim from the given offset, and every other byte is left alone |
| Staging.CopyVertices | src/main.cpp:307-309 | the vertices are copied in order from byte 0, and the bytes after them are left alone |
| Staging.CopyIndices | src/main.cpp:311-315 | the indices are copied in order from the given byte, and the bytes around them are left alone |
| Staging.StageGeometry | src/main.cpp:302-315 | a staging buffer of vsize + isize bytes ends up holding the vertex bytes followed by the index bytes |
| Staging.UploadRegionsCover | src/main.cpp:346-358 | the vertex region starts at 0 with length vsize; the index region starts at vsize with length isize; they are adjacent and disjoint and cover the staging buffer exactly; they carry the vertex bytes and the index bytes |
| App.StageGeometryBuffer | src/main.cpp:293-317 | the geometry staging buffer is created with vsize + isize bytes, mapped, filled and unmapped; a refused creation or map gives its own error |
| App.StagePixels | src/main.cpp:319-338 | the pixel staging buffer is created with pitch * h bytes and receives the surface's pixel bytes verbatim |
| App.StageAll | src/main.cpp:293-338 | both staging buffers are filled; each failure gives its own message |
| App.UploadedContents | src/main.cpp:346-358 | the two regions copied into the new buffers leave exactly the vertex bytes and the index bytes |
| App.UploadVertexRegion | src/main.cpp:346-353 | bytes [0, vsize) of the staging buffer go into the vertex buffer, which then holds the vertex bytes |
| App.UploadIndexRegion | src/main.cpp:355-358 | bytes [vsize, vsize + isize) go into the index buffer, which then holds the index bytes |
| App.UploadGeometry | src/main.cpp:346-358 | both buffer uploads, vertex first |
| App.CopyPass | src/main.cpp:344-370 | one copy pass: the two buffer uploads and the w x h x 1 texture upload, whose pixels are the surface's |
| App.RecordUploads | src/main.cpp:340-373 | the upload's command buffer is acquired, recorded and submitted; failure to acquire or submit gives its own error |
| App.ReleaseStaging | src/main.cpp:375-378 | both staging buffers are released, then the surface is destroyed |
| App.AppState.StageUpload | src/main.cpp:271-338 | the GPU buffers and both staging buffers are created and filled, in that order |
| App.AppState.FinishUpload | src/main.cpp:340-378 | the copy pass is submitted before the staging buffers are released and the surface destroyed |
| App.AppState.Upload | src/main.cpp:271-378 | on success the vertex buffer holds the vertex bytes, the index buffer the index bytes and the texture the pixels; the staging buffers are gone and the surface is destroyed; each failing step gives its own message |
| Protocol.UploadFollowsProtocol | src/main.cpp:340-373 | the upload's command buffer uses its copy pass as SDL requires and is submitted with no pass open |
| Protocol.UploadCommandsRecorded | src/main.cpp:293-378 | the commands among the upload's calls are exactly its command buffer's |
| Protocol.UploadReleasesOnce | src/main.cpp:375-378 | each staging buffer is released exactly once and the surface is destroyed exactly once |
| Protocol.UploadReleasesAfterSubmit | src/main.cpp:372-378 | both staging buffers are released after the submission, and the surface is destroyed last |
| Protocol.UploadOwnsOnlyBuffers | src/main.cpp:271-378 | of the handles the upload creates, only the vertex and index buffers remain owned |
| Protocol.PipelineSetUpOwns | src/main.cpp:175-241 | the shaders are released only after the pipeline exists, and afterwards the device owns what it did plus the pipeline and the two targets |
| Protocol.ResizeReleasesFirst | src/main.cpp:393-398 | each target is released before its replacement is created |
| Protocol.ResizeSwapsAttachments | src/main.cpp:392-399 | the owned set loses the two old targets, gains the two new ones and keeps its size: no leak, no double release |
| Protocol.RenderPassBalanced | src/main.cpp:435-464 | the render pass begins and ends outside any pass |
| Protocol.FrameFollowsProtocol | src/main.cpp:412-468 | every frame, drawing or not, acquires its command buffer first, closes every pass and submits last |
| Protocol.FrameWithoutTextureDrawsNothing | src/main.cpp:416-420 | without a swapchain texture, a frame only acquires and submits its command buffer: no pass, no draw |
| Protocol.FrameDrawsOnce | src/main.cpp:420-468 | with a swapchain texture, a frame draws exactly once with (|indices|, 1, 0, 0, 0); the pass resolves the MSAA texture into the swapchain texture and ends before the submission |
| Protocol.ToU32 | src/main.cpp:105-106 | static_cast<Uint32> is the identity in range and otherwise wraps modulo 2^32 |
| App.AppState.RecordRenderPass | src/main.cpp:420-465 | the render pass: begin with the MSAA and depth targets, bind the pipeline, vertex buffer, 32-bit index buffer and texture-sampler pair, push the matrix, draw, end |
| App.AppState.RecordTarget | src/main.cpp:416-465 | the swapchain texture is acquired, and the render pass is recorded only when it is not null |
| App.AppState.RecordFrame | src/main.cpp:416-470 | the frame's commands are recorded and then submitted; a refused submission gives its own error |
| App.AppState.Iterate | src/main.cpp:407-471 | a frame: no command buffer and a failed swapchain acquisition are errors; otherwise exactly the frame's commands in order; owned objects unchanged |
| ModelLoading.LoadModel | src/Model.cpp:8-33 | no scene is "Couldn't load model"; otherwise the vertices and indices are every mesh's vertices and face indices, in order, starting from empty lists |
| ModelLoading.AppendMeshVertices | src/Model.cpp:17-26 | appends every vertex of the mesh with its position and its first texture coordinate's (x, y), or (0, 0) |
| ModelLoading.AppendFaces | src/Model.cpp:27-31 | appends every corner of every face, unchanged, face after face |
| ModelLoading.SceneVerticesCount | src/Model.cpp:15-26 | the number of vertices is the sum of mNumVertices over the meshes |
| ModelLoading.FaceIndicesCount | src/Model.cpp:27-31 | a mesh contributes the sum of mNumIndices over its faces |
| ModelLoading.SceneIndicesCount | src/Model.cpp:15-31 | the number of indices is the sum of mNumIndices over all faces of all meshes |
| ModelLoading.SceneVertexAt | src/Model.cpp:19-25 | vertex j of mesh m lands after all earlier meshes' vertices, with the source position and the uv of channel 0 or (0, 0) |
| ModelLoading.FaceIndexAt | src/Model.cpp:27-31 | corner k of face f lands after all earlier faces' corners |
| ModelLoading.SceneIndexAt | src/Model.cpp:15-31 | corner k of face f of mesh m lands in mesh, face, corner order, unchanged |
| ModelLoading.TriangleFaces | src/Model.cpp:27-31 | triangle faces contribute three indices each |
| ModelLoading.TriangleIndexCount | src/Model.cpp:10-31 | when every face is a triangle, the index count is a multiple of 3 |
| ModelLoading.FaceIndicesBelow | src/Model.cpp:30 | face indices below a bound stay below it once flattened |
| ModelLoading.SceneIndicesInRange | src/Model.cpp:30 | if each face index is below its own mesh's vertex count, every output index is below the total vertex count |
| ModelLoading.VertexCountPrefix | src/Model.cpp:15-26 | the vertices of mesh m lie within the output vertices |
| ModelLoading.OneMeshModel | src/Model.cpp:15-31 | a one-mesh scene yields exactly that mesh's vertices and face indices |
| ModelLoading.SharedIndicesReferFirstMesh | src/Model.cpp:30 | as written, in a two-mesh scene the second mesh's index 0 names the first mesh's vertex |
| ModelLoading.LoadModelRebased | src/Model.cpp:8-33 | corrected: as LoadModel, but each mesh's indices are offset by the number of vertices emitted before it |
| ModelLoading.AppendShiftedFaces | src/Model.cpp:27-31 | corrected face loop: every corner offset by the base, in order |
| ModelLoading.AppendShiftedCorners | src/Model.cpp:29-30 | corrected corner loop: each index offset by the base in 32-bit arithmetic |
| ModelLoading.RebasedCount | src/Model.cpp:27-31 | the corrected index list is as long as the one as written |
| ModelLoading.RebasedIndexAt | src/Model.cpp:30 | corrected: corner k of face f of mesh m becomes that index plus the vertex count of the earlier meshes |
| ModelLoading.RebasedIndicesResolve | src/Model.cpp:15-31 | corrected: every face corner of every mesh draws the vertex it names in its own mesh |
| ModelLoading.RebasedOneMesh | src/Model.cpp:15-31 | on a one-mesh scene the corrected loader agrees with the loader as written |
| Layout.U32BytesRead | src/main.cpp:311-315 | a word read from four bytes encodes back to those bytes |
| Layout.VertexPlaced | src/main.cpp:191-197 | wherever a vertex's 20 bytes are placed, the FLOAT3 at offset 0 and the FLOAT2 at offset 12 read back its position and uv |
| Sdl.Device.Release | src/main.cpp:393-397 | only an owned handle can be released, and it is then no longer owned |
| Sdl.Device.DestroySurface | src/main.cpp:88-93 | only an owned surface can be destroyed, and it is then no longer owned |

## Left out

- SDL start-up (src/main.cpp:137-161): `SDL_Init`, `SDL_GetBasePath`, window creation, GPU device creation and claiming the window are foreign calls. The device is a constructor argument and the base path a parameter. The driver-name `std::println` is output only.
- `SDL_SetGPUTextureName` and `SDL_SetGPUBufferName` only attach debug names. `SDL_ShowWindow` (src/main.cpp:380) only shows the window. None of these is modelled.
- Reading the shader file (src/main.cpp:57-60): the file system is a map from path to bytes.
- Image decoding and pixel conversion (`IMG_Load`, `SDL_ConvertSurface`): their results are parameters. Only which surface is owned, its format tag and its pixel bytes are modelled.
- The Assimp import (src/Model.cpp:9-11): the scene is an input datatype. Positions and texture coordinates are bit patterns, never computed with.
- The model-view-projection matrix (src/main.cpp:450-459) is floating-point glm arithmetic. The pushed uniform records only what it is computed from: the tick count and the window size. The aspect ratio is not modelled.
- `AppState::GetWindowWidth`, `GetWindowHeight` and `GetWindowAspectRatio` (src/AppState.cpp) wrap `SDL_GetWindowSize`. The window size is a parameter, and a failing `SDL_GetWindowSize` is not modelled.
- `SDL_GetTicks` is a parameter of `App.AppState.Iterate`.
- Asynchronous GPU completion: an upload takes effect when it is recorded. Device-side reference counting of released transfer buffers is not modelled.
- Exception.h appends the foreign `SDL_GetError()` text to each message. An `Err` carries only the message.
- src/utils.h is a stale copy of `LoadShader` and `LoadImage` that no file under src/ includes. Only the src/main.cpp copy is modelled.
- `SDL_AppQuit` (src/main.cpp:473-474) is empty. Teardown of the GPU objects is not modelled.
- Vertex.h is not part of this model. `sizeof(Vertex)` is taken as 20 bytes.
- App.AppState.Init: requires the geometry byte count to fit in Uint32, and `pitch * h` to fit in a signed int, as the casts at src/main.cpp:274, 285, 295 and 320 need. Larger inputs are not modelled.
- Shaders.JoinPath: models `std::filesystem::path::operator/` with `/` as the only separator, as on POSIX. On Windows, where DXIL is chosen, `\` also ends a path; a base path ending in `\` would get an extra `/` in the model.
- Sdl.Device.UploadToTexture: the texture receives the surface's pixel bytes as they are. The source's transfer info leaves `pixels_per_row` at 0, meaning tightly packed rows (src/main.cpp:360-366), so this matches only when the surface's pitch is 4 * w; row padding is not modelled.
- App.AppState.InitTexture: when LoadImage returns a null surface, src/main.cpp:258 reads its fields, which is undefined behaviour. The model stops there with `Err(NullImageRead)`; what the program does next is not modelled.
- App.AppState.Init: the model file is imported twice, at `new AppState()` (`App.NewAppState`) and again at src/main.cpp:269. The two imports are independent inputs, so the model also covers a second import that differs from the first.
- ModelLoading.LoadModel: assumes the importer's texture-coordinate channel has one entry per vertex (`WellFormedMesh`), since Assimp guarantees it.

## Findings

The application layer (`App.NewAppState`, `App.AppState.Init`) runs both loaders as written. The corrected members below are proved on their own.

| source | as written | input that shows it | evidently intended | confidence | as-written member | corrected member |
|---|---|---|---|---|---|---|
| src/Model.cpp:30 | face indices are appended unchanged, though each mesh's indices count from its own first vertex | two one-triangle meshes, each with faces [0, 1, 2]: output index 3 is 0 and draws the first mesh's vertex | offset each mesh's indices by the number of vertices emitted before it | medium, not executed (the model file's mesh count is not known here; on one mesh the two agree) | ModelLoading.SharedIndicesReferFirstMesh | ModelLoading.RebasedIndicesResolve |
| src/main.cpp:91-97 | when `SDL_ConvertSurface` returns null, `LoadImage` returns null without an error, and src/main.cpp:258 then dereferences it | a decoded surface not in ABGR8888 whose conversion fails | report the failed conversion as an error | high, not executed | App.ConversionFailureReturnsNull | App.LoadImageChecked |
