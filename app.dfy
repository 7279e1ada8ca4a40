/** The renderer itself (src/main.cpp): shader loading, image loading, the
    depth-format probe, the render targets and their re-creation on resize,
    the initial upload of the model and the image, and one frame. The SDL
    library is the `Device` of module Sdl; each call whose result the source
    checks (or passes on) takes whether it succeeds as a parameter. A thrown
    exception is an `Err` carrying its message. */
module App {
  import opened Wrappers
  import opened Layout
  import opened Shaders
  import opened Sdl
  import ModelLoading
  import opened Staging
  import opened Protocol

  // ---------------------------------------------------------------------------
  // Pure decisions

  /** The depth-stencil format probe (src/main.cpp:163-173): D24_UNORM_S8_UINT
      when the device supports it, otherwise D32_FLOAT_S8_UINT, otherwise an
      error. */
  function ChooseDepthStencilFormat(supported: set<TextureFormat>): (r: Result<TextureFormat>)
    ensures r.Ok? ==> r.value in supported && (r.value == D24UnormS8Uint || r.value == D32FloatS8Uint)
    ensures D24UnormS8Uint in supported ==> r == Ok(D24UnormS8Uint)
    ensures r.Err? <==> D24UnormS8Uint !in supported && D32FloatS8Uint !in supported
    ensures r.Err? ==> r.error == "Couldn't find a suitable depth stencil format"
  {
    if D24UnormS8Uint in supported then Ok(D24UnormS8Uint)
    else if D32FloatS8Uint in supported then Ok(D32FloatS8Uint)
    else Err("Couldn't find a suitable depth stencil format")
  }

  /** One vertex buffer, in slot 0, advanced per vertex by sizeof(Vertex). */
  const VertexBufferLayout: seq<VertexBufferDescription> := [VertexBufferDescription(0, VertexSize, PerVertex, 0)]

  /** Location 0 is the position (FLOAT3 at offsetof(Vertex, position)),
      location 1 the uv (FLOAT2 at offsetof(Vertex, uv)), both from slot 0. */
  const VertexAttributes: seq<VertexAttribute> :=
    [VertexAttribute(0, 0, Float3, PositionOffset), VertexAttribute(1, 0, Float2, UvOffset)]

  /** The graphics pipeline's create-info (src/main.cpp:185-230). */
  function PipelineFor(vertexShader: Handle, fragmentShader: Handle, colorFormat: TextureFormat,
                       samples: SampleCount, depthFormat: TextureFormat): PipelineInfo
  {
    PipelineInfo(vertexShader, fragmentShader, VertexBufferLayout, VertexAttributes, samples,
                 Less, true, true, [colorFormat], depthFormat, true)
  }

  /** The pipeline's vertex input reads the staged vertex buffer as it was
      laid out: the pipeline's pitch is the staging stride and attribute 0 is
      a FLOAT3 from slot 0 at the position's offset, and what that fetch reads
      for vertex `i` of a buffer holding `MeshVertexBytes(vs)` is the position
      of `vs[i]`. */
  lemma PositionAttributeMatchesStaging(vs: seq<Vertex>, i: nat)
    requires i < |vs|
    ensures VertexAttributes[0].bufferSlot == VertexBufferLayout[0].slot && VertexAttributes[0].format == Float3
    ensures VertexBufferLayout[0].pitch == VertexSize && VertexAttributes[0].offset == PositionOffset
    ensures ReadFloat3(MeshVertexBytes(vs), i * VertexSize + PositionOffset)
            == vs[i].position
  {
    VertexFetch(vs, i);
  }

  /** Likewise attribute 1, a FLOAT2, reads vertex `i`'s uv. */
  lemma UvAttributeMatchesStaging(vs: seq<Vertex>, i: nat)
    requires i < |vs|
    ensures VertexAttributes[1].bufferSlot == VertexBufferLayout[0].slot && VertexAttributes[1].format == Float2
    ensures VertexBufferLayout[0].pitch == VertexSize && VertexAttributes[1].offset == UvOffset
    ensures ReadFloat2(MeshVertexBytes(vs), i * VertexSize + UvOffset)
            == vs[i].uv
  {
    VertexFetch(vs, i);
  }

  /** Linear filtering and mipmapping, clamped to the edge on all three axes
      (src/main.cpp:243-250). */
  const LinearClamp: SamplerInfo := SamplerInfo(Linear, Linear, MipmapLinear, ClampToEdge, ClampToEdge, ClampToEdge)

  /** The create-info of a render target (src/main.cpp:101-110, 119-127): the
      window size cast to Uint32, one layer, one level. */
  function AttachmentInfo(format: TextureFormat, usage: TextureUsage, width: int, height: int,
                          samples: SampleCount): (info: TextureInfo)
    ensures info.format == format && info.usage == usage && info.sampleCount == samples
    ensures info.layerCountOrDepth == 1 && info.numLevels == 1
    ensures 0 <= width < U32Limit ==> info.width == width
    ensures 0 <= height < U32Limit ==> info.height == height
  {
    TextureInfo(format, usage, ToU32(width), ToU32(height), 1, 1, samples)
  }

  /** The image texture's create-info (src/main.cpp:255-262): RGBA8, sampled,
      the surface's size, single-sampled (sample_count left at zero). */
  function ImageTextureInfo(s: Surface): TextureInfo {
    TextureInfo(R8G8B8A8Unorm, SamplerUsage, ToU32(s.w), ToU32(s.h), 1, 1, Samples1)
  }

  /** BasePath / "Content/Images" / name */
  function ImagePath(basePath: string, name: string): string {
    JoinPath(JoinPath(basePath, "Content/Images"), name)
  }

  // ---------------------------------------------------------------------------
  // LoadShader and LoadImage

  /** LoadShader (src/main.cpp:24-75): the shader object created from the
      resolved create-info. A null from SDL_CreateGPUShader is returned as it
      is; the caller checks it. */
  method LoadShader(device: Device, name: string, samplerCount: U32, uniformBufferCount: U32,
                    storageBufferCount: U32, storageTextureCount: U32, basePath: string,
                    files: map<string, seq<Byte>>, granted: bool) returns (r: Result<Handle>)
    requires device.Valid()
    modifies device
    ensures device.Valid()
    ensures var info := ResolveShader(name, samplerCount, uniformBufferCount, storageBufferCount,
                                      storageTextureCount, device.shaderFormats, basePath, files);
            && (info.Err? ==> r == Err(info.error) && unchanged(device))
            && (info.Ok? && !granted ==> r == Ok(Null) && unchanged(device))
            && (info.Ok? && granted ==>
                  && r == Ok(old(device.next)) && device.next == old(device.next) + 1
                  && device.live == old(device.live)[r.value := Shader(info.value)]
                  && device.surfaces == old(device.surfaces)
                  && device.log == old(device.log) + [Created(r.value, Shader(info.value))])
  {
    var info := ResolveShader(name, samplerCount, uniformBufferCount, storageBufferCount,
                              storageTextureCount, device.shaderFormats, basePath, files);
    if info.Err? {
      return Err(info.error);
    }
    var shader := device.Create(Shader(info.value), granted);
    return Ok(shader);
  }

  /** LoadImage (src/main.cpp:77-98) as written: the loaded surface, converted
      to ABGR8888 when it is in another format. Every surface it made and does
      not return is destroyed exactly once; but when the conversion fails it
      returns null and raises no error. */
  method LoadImage(device: Device, basePath: string, name: string, desiredChannels: int,
                   decoded: Option<Surface>, converted: Option<Surface>) returns (r: Result<Handle>)
    requires device.Valid()
    requires decoded.Some? ==> decoded.value.WellFormed()
    requires converted.Some? ==> converted.value.WellFormed() && converted.value.format == PixelFormatAbgr8888
    modifies device
    ensures device.Valid() && device.live == old(device.live)
    ensures decoded.None? ==> r == Err("Couldn't load image") && unchanged(device)
    ensures decoded.Some? ==>
      var loaded := old(device.next);
      var path := ImagePath(basePath, name);
      && (desiredChannels != 4 ==>
            && r == Err("Unsupported number of channels")
            && device.surfaces == old(device.surfaces) && device.next == loaded + 1
            && device.log == old(device.log) + [SurfaceLoaded(loaded, path), SurfaceDestroyed(loaded)])
      && (desiredChannels == 4 && decoded.value.format == PixelFormatAbgr8888 ==>
            && r == Ok(loaded)
            && device.surfaces == old(device.surfaces)[loaded := decoded.value] && device.next == loaded + 1
            && device.log == old(device.log) + [SurfaceLoaded(loaded, path)])
      && (desiredChannels == 4 && decoded.value.format != PixelFormatAbgr8888 && converted.Some? ==>
            && r == Ok(loaded + 1)
            && device.surfaces == old(device.surfaces)[loaded + 1 := converted.value] && device.next == loaded + 2
            && device.log == old(device.log) + [SurfaceLoaded(loaded, path), SurfaceConverted(loaded, loaded + 1),
                                                SurfaceDestroyed(loaded)])
      && (desiredChannels == 4 && decoded.value.format != PixelFormatAbgr8888 && converted.None? ==>
            && r == Ok(Null)
            && device.surfaces == old(device.surfaces) && device.next == loaded + 1
            && device.log == old(device.log) + [SurfaceLoaded(loaded, path), SurfaceDestroyed(loaded)])
    ensures r.Ok? && r.value != Null ==>
      && r.value !in old(device.surfaces) && device.surfaces.Keys == old(device.surfaces).Keys + {r.value}
      && device.surfaces[r.value].format == PixelFormatAbgr8888
  {
    var path := ImagePath(basePath, name);
    var result := device.LoadSurface(path, decoded);
    if result == Null {
      return Err("Couldn't load image");
    }
    if desiredChannels != 4 {
      device.DestroySurface(result);
      return Err("Unsupported number of channels");
    }
    if device.surfaces[result].format != PixelFormatAbgr8888 {
      var next := device.ConvertSurface(result, PixelFormatAbgr8888, converted);
      device.DestroySurface(result);
      result := next;
    }
    return Ok(result);
  }

  /** A PNG decoded to a format other than ABGR8888 whose conversion fails:
      LoadImage reports success with a null surface, which SDL_AppInit then
      dereferences (src/main.cpp:258). */
  method ConversionFailureReturnsNull() returns (r: Result<Handle>)
    ensures r == Ok(Null)
  {
    var device := new Device(FormatSpirv, {D24UnormS8Uint}, B8G8R8A8Unorm);
    r := LoadImage(device, "/", "viking_room.png", 4, Some(Surface(PixelFormatAbgr8888 + 1, 0, 0, 0, [])), None);
  }

  /** LoadImage with four channels returns a surface rather than null: the
      image was decoded, and it is ABGR8888 already or its conversion worked. */
  predicate ImageAvailable(decoded: Option<Surface>, converted: Option<Surface>) {
    decoded.Some? && (decoded.value.format == PixelFormatAbgr8888 || converted.Some?)
  }

  /** Where SDL_AppInit reads the fields of a null surface (src/main.cpp:258),
      which C++ leaves undefined, the model stops with this error. */
  const NullImageRead := "Null image surface dereferenced"

  /** LoadImage with the conversion's result checked: success always returns a
      live ABGR8888 surface, and no path leaves a surface behind that it does
      not return. */
  method LoadImageChecked(device: Device, basePath: string, name: string, desiredChannels: int,
                          decoded: Option<Surface>, converted: Option<Surface>) returns (r: Result<Handle>)
    requires device.Valid()
    requires decoded.Some? ==> decoded.value.WellFormed()
    requires converted.Some? ==> converted.value.WellFormed() && converted.value.format == PixelFormatAbgr8888
    modifies device
    ensures device.Valid() && device.live == old(device.live)
    ensures r.Ok? ==>
      && decoded.Some? && r.value != Null && r.value !in old(device.surfaces)
      && device.surfaces.Keys == old(device.surfaces).Keys + {r.value}
      && device.surfaces[r.value].format == PixelFormatAbgr8888
      && device.surfaces[r.value] == (if decoded.value.format == PixelFormatAbgr8888 || converted.None? then decoded.value
                                      else converted.value)
      && (decoded.value.format != PixelFormatAbgr8888 ==> converted.Some?)
    ensures r.Err? ==> device.surfaces == old(device.surfaces)
    ensures r.Err? <==> decoded.None? || desiredChannels != 4
                        || (decoded.value.format != PixelFormatAbgr8888 && converted.None?)
    ensures r.Err? ==> r.error == (if decoded.None? then "Couldn't load image"
                                   else if desiredChannels != 4 then "Unsupported number of channels"
                                   else "Couldn't convert surface")
  {
    r := LoadImage(device, basePath, name, desiredChannels, decoded, converted);
    if r == Ok(Null) {
      r := Err("Couldn't convert surface");
    }
  }

  // ---------------------------------------------------------------------------
  // The application state

  datatype Event = QuitEvent | WindowResizedEvent | OtherEvent

  datatype AppResult = AppContinue | AppSuccess

  /** The outcome of SDL_WaitAndAcquireGPUSwapchainTexture: failure, or
      success with a texture that may be null (nothing to draw into). */
  datatype Swapchain = AcquireFailed | Acquired(texture: Handle)

  /** Whether each step of the initial upload succeeds. */
  datatype UploadOutcomes = UploadOutcomes(
    vertexBuffer: bool, indexBuffer: bool, geometryStaging: bool, geometryMap: bool,
    pixelStaging: bool, pixelMap: bool, commandBuffer: bool, submit: bool)

  /** The error the initial upload throws: that of its first failing step. */
  function UploadError(o: UploadOutcomes): Option<string> {
    if !o.vertexBuffer || !o.indexBuffer then Some("Couldn't create GPU buffer")
    else if !o.geometryStaging then Some("Couldn't create transfer buffer")
    else if !o.geometryMap then Some("Couldn't map transfer buffer")
    else if !o.pixelStaging then Some("Couldn't create transfer buffer")
    else if !o.pixelMap then Some("Couldn't map transfer buffer")
    else if !o.commandBuffer then Some("Couldn't acquire GPU command buffer")
    else if !o.submit then Some("Couldn't submit GPU command buffer")
    else None
  }

  /** The geometry staging buffer (src/main.cpp:293-317): created with room for
      the vertex bytes and the index bytes, mapped, filled with the vertices
      from byte 0 and the indices after them, unmapped. */
  method StageGeometryBuffer(device: Device, vs: seq<Vertex>, xs: seq<U32>, created: bool, mapped: bool)
    returns (r: Result<Handle>)
    requires device.Valid()
    modifies device
    ensures device.Valid() && device.surfaces == old(device.surfaces)
    ensures !created ==> r == Err("Couldn't create transfer buffer")
    ensures created && !mapped ==> r == Err("Couldn't map transfer buffer")
    ensures created && mapped ==>
      var size := VertexBytesSize(vs) + IndexBytesSize(xs);
      && r == Ok(old(device.next)) && device.next == old(device.next) + 1
      && device.live == old(device.live)[r.value := TransferBuffer(GeometryBytes(vs, xs))]
      && device.log == old(device.log) + [Created(r.value, TransferBuffer(Zeros(size))), Mapped(r.value), Unmapped(r.value)]
  {
    var h := device.Create(TransferBuffer(Zeros(VertexBytesSize(vs) + IndexBytesSize(xs))), created);
    if h == Null {
      return Err("Couldn't create transfer buffer");
    }
    var mem := device.Map(h, mapped);
    if mem == null {
      return Err("Couldn't map transfer buffer");
    }
    StageGeometry(mem, vs, xs);
    device.Unmap(h, mem);
    return Ok(h);
  }

  /** The pixel staging buffer (src/main.cpp:319-338): created with the
      surface's pitch * h bytes, mapped, filled with the pixels verbatim,
      unmapped. */
  method StagePixels(device: Device, s: Surface, created: bool, mapped: bool) returns (r: Result<Handle>)
    requires device.Valid() && s.WellFormed()
    modifies device
    ensures device.Valid() && device.surfaces == old(device.surfaces)
    ensures !created ==> r == Err("Couldn't create transfer buffer")
    ensures created && !mapped ==> r == Err("Couldn't map transfer buffer")
    ensures created && mapped ==>
      && r == Ok(old(device.next)) && device.next == old(device.next) + 1
      && device.live == old(device.live)[r.value := TransferBuffer(s.pixels)]
      && device.log == old(device.log) + [Created(r.value, TransferBuffer(Zeros(s.pitch * s.h))), Mapped(r.value),
                                          Unmapped(r.value)]
  {
    var h := device.Create(TransferBuffer(Zeros(s.pitch * s.h)), created);
    if h == Null {
      return Err("Couldn't create transfer buffer");
    }
    var mem := device.Map(h, mapped);
    if mem == null {
      return Err("Couldn't map transfer buffer");
    }
    CopyBytes(mem, 0, s.pixels);
    assert mem[..] == mem[0..|s.pixels|];
    device.Unmap(h, mem);
    return Ok(h);
  }

  /** What the two buffer uploads leave in the freshly created (zeroed)
      buffers: the vertex bytes and the index bytes. */
  lemma UploadedContents(vs: seq<Vertex>, xs: seq<U32>)
    ensures var vsize, isize := VertexBytesSize(vs), IndexBytesSize(xs);
            && GeometryBytes(vs, xs)[0..vsize] + Zeros(vsize)[vsize..] == MeshVertexBytes(vs)
            && GeometryBytes(vs, xs)[vsize..vsize + isize] + Zeros(isize)[isize..] == MeshIndexBytes(xs)
  {
    var a, b := MeshVertexBytes(vs), MeshIndexBytes(xs);
    assert GeometryBytes(vs, xs) == a + b;
    assert (a + b)[0..|a|] == a && (a + b)[|a|..|a| + |b|] == b;
    assert Zeros(|a|)[|a|..] == [] && Zeros(|b|)[|b|..] == [];
  }

  /** The vertex upload (src/main.cpp:346-353): bytes [0, VertexBytesSize)
      of the geometry staging buffer into the whole vertex buffer. */
  method UploadVertexRegion(device: Device, first: Handle, vs: seq<Vertex>, xs: seq<U32>)
    requires device.Valid()
    requires first in device.live && device.live[first] == Buffer(VertexUsage, Zeros(VertexBytesSize(vs)))
    requires first + 2 in device.live && device.live[first + 2] == TransferBuffer(GeometryBytes(vs, xs))
    modifies device
    ensures device.Valid() && device.surfaces == old(device.surfaces) && device.next == old(device.next)
    ensures device.live == old(device.live)[first := Buffer(VertexUsage, MeshVertexBytes(vs))]
    ensures device.log == old(device.log) + [Recorded(BufferUploaded(first + 2, 0, first, VertexBytesSize(vs)))]
  {
    UploadedContents(vs, xs);
    device.UploadToBuffer(first + 2, 0, first, VertexBytesSize(vs));
  }

  /** The index upload (src/main.cpp:355-358): the bytes from VertexBytesSize
      on into the whole index buffer. */
  method UploadIndexRegion(device: Device, first: Handle, vs: seq<Vertex>, xs: seq<U32>)
    requires device.Valid()
    requires first + 1 in device.live && device.live[first + 1] == Buffer(IndexUsage, Zeros(IndexBytesSize(xs)))
    requires first + 2 in device.live && device.live[first + 2] == TransferBuffer(GeometryBytes(vs, xs))
    modifies device
    ensures device.Valid() && device.surfaces == old(device.surfaces) && device.next == old(device.next)
    ensures device.live == old(device.live)[first + 1 := Buffer(IndexUsage, MeshIndexBytes(xs))]
    ensures device.log == old(device.log)
                          + [Recorded(BufferUploaded(first + 2, VertexBytesSize(vs), first + 1, IndexBytesSize(xs)))]
  {
    UploadedContents(vs, xs);
    device.UploadToBuffer(first + 2, VertexBytesSize(vs), first + 1, IndexBytesSize(xs));
  }

  /** The two buffer uploads (src/main.cpp:346-358): the vertex region of the
      geometry staging buffer into the vertex buffer, the index region into
      the index buffer. */
  method UploadGeometry(device: Device, first: Handle, vs: seq<Vertex>, xs: seq<U32>)
    requires device.Valid()
    requires first in device.live && device.live[first] == Buffer(VertexUsage, Zeros(VertexBytesSize(vs)))
    requires first + 1 in device.live && device.live[first + 1] == Buffer(IndexUsage, Zeros(IndexBytesSize(xs)))
    requires first + 2 in device.live && device.live[first + 2] == TransferBuffer(GeometryBytes(vs, xs))
    modifies device
    ensures device.Valid() && device.surfaces == old(device.surfaces) && device.next == old(device.next)
    ensures device.live == old(device.live)[first := Buffer(VertexUsage, MeshVertexBytes(vs))]
                                           [first + 1 := Buffer(IndexUsage, MeshIndexBytes(xs))]
    ensures device.log == old(device.log) + [
      Recorded(BufferUploaded(first + 2, 0, first, VertexBytesSize(vs))),
      Recorded(BufferUploaded(first + 2, VertexBytesSize(vs), first + 1, IndexBytesSize(xs)))]
  {
    UploadVertexRegion(device, first, vs, xs);
    UploadIndexRegion(device, first, vs, xs);
  }

  /** The copy pass of the upload (src/main.cpp:344-370). */
  method CopyPass(device: Device, first: Handle, vs: seq<Vertex>, xs: seq<U32>, s: Surface, texture: Handle)
    requires device.Valid()
    requires first in device.live && device.live[first] == Buffer(VertexUsage, Zeros(VertexBytesSize(vs)))
    requires first + 1 in device.live && device.live[first + 1] == Buffer(IndexUsage, Zeros(IndexBytesSize(xs)))
    requires first + 2 in device.live && device.live[first + 2] == TransferBuffer(GeometryBytes(vs, xs))
    requires first + 3 in device.live && device.live[first + 3] == TransferBuffer(s.pixels)
    requires texture in device.live && device.live[texture].Texture? && texture < first
    modifies device
    ensures device.Valid() && device.surfaces == old(device.surfaces) && device.next == old(device.next)
    ensures device.live == old(device.live)[first := Buffer(VertexUsage, MeshVertexBytes(vs))]
                                           [first + 1 := Buffer(IndexUsage, MeshIndexBytes(xs))]
                                           [texture := Texture(old(device.live[texture].texture), s.pixels)]
    ensures device.log == old(device.log) + [Recorded(CopyPassBegun),
      Recorded(BufferUploaded(first + 2, 0, first, VertexBytesSize(vs))),
      Recorded(BufferUploaded(first + 2, VertexBytesSize(vs), first + 1, IndexBytesSize(xs))),
      Recorded(TextureUploaded(first + 3, texture, ToU32(s.w), ToU32(s.h), 1)), Recorded(CopyPassEnded)]
  {
    device.Record(CopyPassBegun);
    UploadGeometry(device, first, vs, xs);
    device.UploadToTexture(first + 3, texture, ToU32(s.w), ToU32(s.h), 1);
    device.Record(CopyPassEnded);
  }

  /** The upload's command buffer (src/main.cpp:340-373): one copy pass moving
      the vertex region into the vertex buffer, the index region into the index
      buffer and the pixels into the texture, then submission. Handles `first`
      to `first + 3` are the vertex buffer, the index buffer, the geometry
      staging buffer and the pixel staging buffer. */
  method RecordUploads(device: Device, first: Handle, vs: seq<Vertex>, xs: seq<U32>, s: Surface, texture: Handle,
                       acquired: bool, submitted: bool) returns (r: Result<()>)
    requires device.Valid()
    requires first in device.live && device.live[first] == Buffer(VertexUsage, Zeros(VertexBytesSize(vs)))
    requires first + 1 in device.live && device.live[first + 1] == Buffer(IndexUsage, Zeros(IndexBytesSize(xs)))
    requires first + 2 in device.live && device.live[first + 2] == TransferBuffer(GeometryBytes(vs, xs))
    requires first + 3 in device.live && device.live[first + 3] == TransferBuffer(s.pixels)
    requires texture in device.live && device.live[texture].Texture? && texture < first
    modifies device
    ensures device.Valid() && device.surfaces == old(device.surfaces) && device.next == old(device.next)
    ensures !acquired ==> r == Err("Couldn't acquire GPU command buffer") && unchanged(device)
    ensures acquired ==>
      device.live == old(device.live)[first := Buffer(VertexUsage, MeshVertexBytes(vs))]
                                     [first + 1 := Buffer(IndexUsage, MeshIndexBytes(xs))]
                                     [texture := Texture(old(device.live[texture].texture), s.pixels)]
    ensures acquired && submitted ==>
      var cs := UploadCommands(first, VertexBytesSize(vs), IndexBytesSize(xs), s, texture);
      r == Ok(()) && device.log == old(device.log) + Recordings(cs)
    ensures acquired && !submitted ==>
      var cs := UploadCommands(first, VertexBytesSize(vs), IndexBytesSize(xs), s, texture);
      r == Err("Couldn't submit GPU command buffer") && device.log == old(device.log) + Recordings(cs)[..|cs| - 1]
  {
    if !acquired {
      return Err("Couldn't acquire GPU command buffer");
    }
    var vsize, isize := VertexBytesSize(vs), IndexBytesSize(xs);
    ghost var log0 := device.log;
    ghost var pass := [Recorded(CommandBufferAcquired), Recorded(CopyPassBegun),
                       Recorded(BufferUploaded(first + 2, 0, first, vsize)),
                       Recorded(BufferUploaded(first + 2, vsize, first + 1, isize)),
                       Recorded(TextureUploaded(first + 3, texture, ToU32(s.w), ToU32(s.h), 1)),
                       Recorded(CopyPassEnded)];
    UploadRecorded(first, vsize, isize, s, texture);
    device.Record(CommandBufferAcquired);
    CopyPass(device, first, vs, xs, s, texture);
    assert device.log == log0 + pass;
    if !submitted {
      return Err("Couldn't submit GPU command buffer");
    }
    device.Record(Submitted);
    AppendTwo(log0, pass, [Recorded(Submitted)]);
    r := Ok(());
  }

  /** Both staging buffers (src/main.cpp:293-338): the geometry one at handle
      `first + 2`, the pixel one at `first + 3`. */
  method StageAll(device: Device, vs: seq<Vertex>, xs: seq<U32>, s: Surface, o: UploadOutcomes)
    returns (r: Result<()>)
    requires device.Valid() && s.WellFormed()
    modifies device
    ensures device.Valid() && device.surfaces == old(device.surfaces)
    ensures r.Err? <==> !o.geometryStaging || !o.geometryMap || !o.pixelStaging || !o.pixelMap
    ensures r.Err? ==> r.error == (if !o.geometryStaging || (o.geometryMap && !o.pixelStaging)
                                   then "Couldn't create transfer buffer" else "Couldn't map transfer buffer")
    ensures r.Ok? ==>
      var first := old(device.next);
      && device.next == first + 2
      && device.live == old(device.live)[first := TransferBuffer(GeometryBytes(vs, xs))]
                                        [first + 1 := TransferBuffer(s.pixels)]
      && device.log == old(device.log)
           + [Created(first, TransferBuffer(Zeros(VertexBytesSize(vs) + IndexBytesSize(xs)))), Mapped(first), Unmapped(first)]
           + [Created(first + 1, TransferBuffer(Zeros(s.pitch * s.h))), Mapped(first + 1), Unmapped(first + 1)]
  {
    var geometry := StageGeometryBuffer(device, vs, xs, o.geometryStaging, o.geometryMap);
    if geometry.Err? {
      return Err(geometry.error);
    }
    var pixels := StagePixels(device, s, o.pixelStaging, o.pixelMap);
    if pixels.Err? {
      return Err(pixels.error);
    }
    r := Ok(());
  }

  /** After the submission (src/main.cpp:375-378): both staging buffers
      released, the image surface destroyed. */
  method ReleaseStaging(device: Device, first: Handle, image: Handle)
    requires device.Valid() && first + 2 in device.live && first + 3 in device.live && image in device.surfaces
    modifies device
    ensures device.Valid() && device.next == old(device.next)
    ensures device.live == old(device.live) - {first + 2} - {first + 3}
    ensures device.surfaces == old(device.surfaces) - {image}
    ensures device.log == old(device.log) + CleanupCalls(first, image)
  {
    device.Release(first + 2);
    device.Release(first + 3);
    device.DestroySurface(image);
  }

  /** What the upload leaves owned: the two GPU buffers with the model's bytes
      and the texture with the pixels; the staging buffers are gone. */
  lemma UploadedLive(live: map<Handle, Resource>, first: Handle, texture: Handle, vbytes: seq<Byte>, ibytes: seq<Byte>,
                     gbytes: seq<Byte>, pbytes: seq<Byte>, vsize: nat, isize: nat, info: TextureInfo)
    requires forall h :: h in live ==> h < first
    requires texture in live
    ensures var staged := live[first := Buffer(VertexUsage, Zeros(vsize))][first + 1 := Buffer(IndexUsage, Zeros(isize))]
                              [first + 2 := TransferBuffer(gbytes)][first + 3 := TransferBuffer(pbytes)];
            var uploaded := staged[first := Buffer(VertexUsage, vbytes)][first + 1 := Buffer(IndexUsage, ibytes)]
                                  [texture := Texture(info, pbytes)];
            uploaded - {first + 2} - {first + 3}
              == live[first := Buffer(VertexUsage, vbytes)][first + 1 := Buffer(IndexUsage, ibytes)]
                     [texture := Texture(info, pbytes)]
  {
  }

  /** The two shaders SDL_AppInit loads (src/main.cpp:175-183). */
  const VertexShaderName: string := "TexturedQuadWithMatrix.vert"
  const FragmentShaderName: string := "TexturedQuad.frag"

  /** Their create-infos: the vertex shader has one uniform buffer (the
      matrix), the fragment shader one sampler. */
  function VertexShaderInfo(formats: bv32, basePath: string, files: map<string, seq<Byte>>): Result<ShaderCreateInfo> {
    ResolveShader(VertexShaderName, 0, 1, 0, 0, formats, basePath, files)
  }

  function FragmentShaderInfo(formats: bv32, basePath: string, files: map<string, seq<Byte>>): Result<ShaderCreateInfo> {
    ResolveShader(FragmentShaderName, 1, 0, 0, 0, formats, basePath, files)
  }

  /** The vertex shader (one uniform buffer, for the matrix) and the fragment
      shader (one sampler), each checked for null (src/main.cpp:175-183). */
  method LoadShaders(device: Device, basePath: string, files: map<string, seq<Byte>>, vertexGranted: bool,
                     fragmentGranted: bool) returns (r: Result<(Handle, Handle)>)
    requires device.Valid()
    modifies device
    ensures device.Valid() && device.surfaces == old(device.surfaces)
    ensures var v := VertexShaderInfo(device.shaderFormats, basePath, files);
            var f := FragmentShaderInfo(device.shaderFormats, basePath, files);
            && (r.Ok? <==> v.Ok? && vertexGranted && f.Ok? && fragmentGranted)
            && (v.Err? ==> r == Err(v.error))
            && (v.Ok? && !vertexGranted ==> r == Err("Couldn't load vertex shader"))
            && (v.Ok? && vertexGranted && f.Err? ==> r == Err(f.error))
            && (v.Ok? && vertexGranted && f.Ok? && !fragmentGranted ==> r == Err("Couldn't load fragment shader"))
            && (r.Ok? ==>
                  && r.value == (old(device.next), old(device.next) + 1) && device.next == old(device.next) + 2
                  && device.live == old(device.live)[r.value.0 := Shader(v.value)][r.value.1 := Shader(f.value)]
                  && device.log == old(device.log) + [Created(r.value.0, Shader(v.value)), Created(r.value.1, Shader(f.value))])
  {
    var vertex := LoadShader(device, VertexShaderName, 0, 1, 0, 0, basePath, files, vertexGranted);
    if vertex.Err? {
      return Err(vertex.error);
    }
    if vertex.value == Null {
      return Err("Couldn't load vertex shader");
    }
    var fragment := LoadShader(device, FragmentShaderName, 1, 0, 0, 0, basePath, files, fragmentGranted);
    if fragment.Err? {
      return Err(fragment.error);
    }
    if fragment.value == Null {
      return Err("Couldn't load fragment shader");
    }
    r := Ok((vertex.value, fragment.value));
  }

  /** Objects created after two others and the two then removed: only the
      later ones remain. */
  lemma ShadersGone(live: map<Handle, Resource>, first: Handle, pipeline: Resource, msaa: Resource, depth: Resource,
                    vertex: Resource, fragment: Resource)
    requires forall h :: h in live ==> h < first
    ensures live[first := vertex][first + 1 := fragment][first + 2 := pipeline][first + 3 := msaa][first + 4 := depth]
              - {first} - {first + 1}
            == live[first + 2 := pipeline][first + 3 := msaa][first + 4 := depth]
  {
  }

  /** Whether each step of SDL_AppInit that can fail succeeds, and what the
      image decoder and the second model import (src/main.cpp:269) hand back. */
  datatype InitOutcomes = InitOutcomes(
    vertexShader: bool, fragmentShader: bool, pipeline: bool, msaaTexture: bool, depthStencilTexture: bool,
    sampler: bool, image: Option<Surface>, convertedImage: Option<Surface>, texture: bool,
    scene: Option<ModelLoading.Scene>, upload: UploadOutcomes)

  /** `new AppState()` (src/main.cpp:142): the member `Model model`
      (src/AppState.h:25) is default-constructed, which runs Model::Model and
      imports the model file before any window, device or GPU object is made.
      A failed import throws, and no AppState exists; otherwise the new state
      holds the flattened scene and null handles, and the device is untouched. */
  method NewAppState(device: Device, scene: Option<ModelLoading.Scene>) returns (r: Result<AppState>)
    requires scene.Some? ==> ModelLoading.WellFormedMeshes(scene.value.meshes)
    ensures r.Err? <==> scene.None?
    ensures r.Err? ==> r.error == "Couldn't load model"
    ensures r.Ok? ==>
      && fresh(r.value) && r.value.device == device
      && r.value.model == ModelLoading.Model(ModelLoading.SceneVertices(scene.value.meshes),
                                             ModelLoading.SceneIndices(scene.value.meshes))
      && r.value.pipeline == Null && r.value.texture == Null && r.value.sampler == Null
      && r.value.msaaTexture == Null && r.value.depthStencilTexture == Null
      && r.value.vertexBuffer == Null && r.value.indexBuffer == Null
  {
    var loaded := ModelLoading.LoadModel(scene);
    if loaded.Err? {
      return Err(loaded.error);
    }
    var state := new AppState(device, loaded.value);
    return Ok(state);
  }

  /** AppState: the device and every GPU object the renderer keeps between
      callbacks, and the loaded model. The window is left out; its size is
      passed to the operations that read it. */
  class AppState {
    const device: Device
    var pipeline: Handle
    /** SDL_GPU_SAMPLECOUNT_4 */
    const sampleCount: SampleCount
    var texture: Handle
    var msaaTexture: Handle
    var depthStencilFormat: TextureFormat
    var depthStencilTexture: Handle
    var vertexBuffer: Handle
    var indexBuffer: Handle
    var sampler: Handle
    var model: ModelLoading.Model

    /** Both render targets exist, distinct, on a consistent device. */
    ghost predicate Ready()
      reads this, device
    {
      && device.Valid()
      && msaaTexture in device.live && depthStencilTexture in device.live
      && msaaTexture != depthStencilTexture
    }

    /** The handles a frame binds. */
    function CurrentBindings(): Bindings
      reads this
    {
      Bindings(pipeline, texture, msaaTexture, depthStencilTexture, vertexBuffer, indexBuffer, sampler)
    }

    /** Every handle starts null, the depth-stencil format INVALID (0) and
        the sample count at four; the model member holds what its own
        constructor loaded (see NewAppState). */
    constructor (device: Device, model: ModelLoading.Model)
      ensures this.device == device && sampleCount == Samples4
      ensures pipeline == Null && texture == Null && msaaTexture == Null && depthStencilTexture == Null
      ensures vertexBuffer == Null && indexBuffer == Null && sampler == Null
      ensures depthStencilFormat == OtherTextureFormat(0)
      ensures this.model == model
    {
      this.device := device;
      sampleCount := Samples4;
      pipeline, texture, msaaTexture, depthStencilTexture := Null, Null, Null, Null;
      vertexBuffer, indexBuffer, sampler := Null, Null, Null;
      depthStencilFormat := OtherTextureFormat(0);
      this.model := model;
    }

    /** CreateMsaaTexture (src/main.cpp:100-116): a colour target in the
        swapchain's format, window-sized, multisampled. */
    method CreateMsaaTexture(width: int, height: int, granted: bool) returns (r: Result<()>)
      requires device.Valid()
      modifies this`msaaTexture, device
      ensures device.Valid() && device.surfaces == old(device.surfaces)
      ensures var info := AttachmentInfo(device.swapchainFormat, ColorTargetUsage, width, height, sampleCount);
              && (granted ==>
                    && r == Ok(()) && msaaTexture == old(device.next) && msaaTexture !in old(device.live)
                    && device.next == msaaTexture + 1
                    && device.live == old(device.live)[msaaTexture := Texture(info, [])]
                    && device.log == old(device.log) + [Created(msaaTexture, Texture(info, []))])
              && (!granted ==> r == Err("Couldn't create GPU texture") && msaaTexture == Null && unchanged(device))
    {
      var info := AttachmentInfo(device.swapchainFormat, ColorTargetUsage, width, height, sampleCount);
      msaaTexture := device.Create(Texture(info, []), granted);
      if msaaTexture == Null {
        return Err("Couldn't create GPU texture");
      }
      r := Ok(());
    }

    /** CreateDepthStencilTexture (src/main.cpp:118-134): a depth-stencil
        target in the probed format, window-sized, multisampled. */
    method CreateDepthStencilTexture(width: int, height: int, granted: bool) returns (r: Result<()>)
      requires device.Valid()
      modifies this`depthStencilTexture, device
      ensures device.Valid() && device.surfaces == old(device.surfaces)
      ensures var info := AttachmentInfo(depthStencilFormat, DepthStencilTargetUsage, width, height, sampleCount);
              && (granted ==>
                    && r == Ok(()) && depthStencilTexture == old(device.next) && depthStencilTexture !in old(device.live)
                    && device.next == depthStencilTexture + 1
                    && device.live == old(device.live)[depthStencilTexture := Texture(info, [])]
                    && device.log == old(device.log) + [Created(depthStencilTexture, Texture(info, []))])
              && (!granted ==> r == Err("Couldn't create GPU texture") && depthStencilTexture == Null && unchanged(device))
    {
      var info := AttachmentInfo(depthStencilFormat, DepthStencilTargetUsage, width, height, sampleCount);
      depthStencilTexture := device.Create(Texture(info, []), granted);
      if depthStencilTexture == Null {
        return Err("Couldn't create GPU texture");
      }
      r := Ok(());
    }

    /** Swapping two owned handles for two fresh ones keeps the number owned. */
    static lemma SwappedKeys(live: map<Handle, Resource>, oldMsaa: Handle, oldDepth: Handle, newMsaa: Handle,
                             newDepth: Handle, msaa: Resource, depth: Resource)
      requires oldMsaa in live && oldDepth in live && oldMsaa != oldDepth
      requires newMsaa !in live && newDepth !in live && newMsaa != newDepth
      ensures var swapped := ((live - {oldMsaa})[newMsaa := msaa] - {oldDepth})[newDepth := depth];
              && swapped.Keys == live.Keys - {oldMsaa, oldDepth} + {newMsaa, newDepth}
              && |swapped| == |live|
    {
      var swapped := ((live - {oldMsaa})[newMsaa := msaa] - {oldDepth})[newDepth := depth];
      assert swapped.Keys == live.Keys - {oldMsaa} + {newMsaa} - {oldDepth} + {newDepth};
      SwapKeepsSize(live.Keys, oldMsaa, oldDepth, newMsaa, newDepth);
      assert |swapped| == |swapped.Keys|;
    }

    /** The MSAA texture released and created again at the given size
        (src/main.cpp:392-393). */
    method ReplaceMsaaTexture(width: int, height: int, granted: bool) returns (r: Result<()>)
      requires device.Valid() && msaaTexture in device.live
      modifies this`msaaTexture, device
      ensures device.Valid() && device.surfaces == old(device.surfaces)
      ensures var info := AttachmentInfo(device.swapchainFormat, ColorTargetUsage, width, height, sampleCount);
              var released := old(device.live) - {old(msaaTexture)};
              && (granted ==>
                    && r == Ok(()) && msaaTexture == old(device.next) && device.next == msaaTexture + 1
                    && device.live == released[msaaTexture := Texture(info, [])]
                    && device.log == old(device.log) + [Released(old(msaaTexture)), Created(msaaTexture, Texture(info, []))])
              && (!granted ==>
                    && r == Err("Couldn't create GPU texture") && msaaTexture == Null
                    && device.live == released && device.log == old(device.log) + [Released(old(msaaTexture))])
    {
      device.Release(msaaTexture);
      r := CreateMsaaTexture(width, height, granted);
    }

    /** The depth-stencil texture released and created again at the given
        size (src/main.cpp:396-397). */
    method ReplaceDepthStencilTexture(width: int, height: int, granted: bool) returns (r: Result<()>)
      requires device.Valid() && depthStencilTexture in device.live
      modifies this`depthStencilTexture, device
      ensures device.Valid() && device.surfaces == old(device.surfaces)
      ensures var info := AttachmentInfo(depthStencilFormat, DepthStencilTargetUsage, width, height, sampleCount);
              var released := old(device.live) - {old(depthStencilTexture)};
              && (granted ==>
                    && r == Ok(()) && depthStencilTexture == old(device.next) && device.next == depthStencilTexture + 1
                    && device.live == released[depthStencilTexture := Texture(info, [])]
                    && device.log == old(device.log) + [Released(old(depthStencilTexture)),
                                                        Created(depthStencilTexture, Texture(info, []))])
              && (!granted ==>
                    && r == Err("Couldn't create GPU texture") && depthStencilTexture == Null
                    && device.live == released && device.log == old(device.log) + [Released(old(depthStencilTexture))])
    {
      device.Release(depthStencilTexture);
      r := CreateDepthStencilTexture(width, height, granted);
    }

    /** The resize case of SDL_AppEvent (src/main.cpp:391-401): each render
        target released and created again at the new size. Neither is
        released twice and nothing leaks: the device owns as many objects as
        before. */
    method Resize(width: int, height: int, msaaGranted: bool, depthGranted: bool) returns (r: Result<()>)
      requires Ready()
      modifies this`msaaTexture, this`depthStencilTexture, device
      ensures device.Valid() && device.surfaces == old(device.surfaces)
      ensures !msaaGranted ==>
        && r == Err("Couldn't create GPU texture") && msaaTexture == Null
        && device.live == old(device.live) - {old(msaaTexture)}
        && device.log == old(device.log) + [Released(old(msaaTexture))]
      ensures msaaGranted ==> msaaTexture == old(device.next)
      ensures msaaGranted && !depthGranted ==>
        var msaa := AttachmentInfo(device.swapchainFormat, ColorTargetUsage, width, height, sampleCount);
        var depth := AttachmentInfo(depthStencilFormat, DepthStencilTargetUsage, width, height, sampleCount);
        && r == Err("Couldn't create GPU texture") && depthStencilTexture == Null
        && device.live == (old(device.live) - {old(msaaTexture)})[msaaTexture := Texture(msaa, [])]
                          - {old(depthStencilTexture)}
        && device.log == old(device.log) + [Released(old(msaaTexture)), Created(msaaTexture, Texture(msaa, [])),
                                            Released(old(depthStencilTexture))]
      ensures msaaGranted && depthGranted ==>
        var msaa := AttachmentInfo(device.swapchainFormat, ColorTargetUsage, width, height, sampleCount);
        var depth := AttachmentInfo(depthStencilFormat, DepthStencilTargetUsage, width, height, sampleCount);
        && r == Ok(()) && Ready() && depthStencilTexture == old(device.next) + 1
        && device.live == ((old(device.live) - {old(msaaTexture)})[msaaTexture := Texture(msaa, [])]
                           - {old(depthStencilTexture)})[depthStencilTexture := Texture(depth, [])]
        && device.log == old(device.log) + ResizeCalls(old(msaaTexture), old(depthStencilTexture),
                                                       msaaTexture, depthStencilTexture, msaa, depth)
      ensures msaaGranted && depthGranted ==>
        && device.live.Keys == old(device.live.Keys) - {old(msaaTexture), old(depthStencilTexture)}
                               + {msaaTexture, depthStencilTexture}
        && |device.live| == |old(device.live)|
    {
      ghost var live0, log0 := device.live, device.log;
      ghost var oldMsaa, oldDepth := msaaTexture, depthStencilTexture;
      ghost var msaa := AttachmentInfo(device.swapchainFormat, ColorTargetUsage, width, height, sampleCount);
      ghost var depth := AttachmentInfo(depthStencilFormat, DepthStencilTargetUsage, width, height, sampleCount);
      r := ReplaceMsaaTexture(width, height, msaaGranted);
      if r.Err? {
        return;
      }
      ghost var replaced := [Released(oldMsaa), Created(msaaTexture, Texture(msaa, []))];
      assert device.log == log0 + replaced;
      r := ReplaceDepthStencilTexture(width, height, depthGranted);
      if r.Err? {
        AppendTwo(log0, replaced, [Released(oldDepth)]);
        return;
      }
      AppendTwo(log0, replaced, [Released(oldDepth), Created(depthStencilTexture, Texture(depth, []))]);
      SwappedKeys(live0, oldMsaa, oldDepth, msaaTexture, depthStencilTexture, Texture(msaa, []), Texture(depth, []));
    }

    /** SDL_AppEvent (src/main.cpp:381-405): quit ends the application, a
        resize re-creates the render targets, anything else is ignored. */
    method HandleEvent(e: Event, width: int, height: int, msaaGranted: bool, depthGranted: bool)
      returns (r: Result<AppResult>)
      requires Ready()
      modifies this`msaaTexture, this`depthStencilTexture, device
      ensures device.Valid() && device.surfaces == old(device.surfaces)
      ensures e.QuitEvent? ==> r == Ok(AppSuccess) && unchanged(this) && unchanged(device)
      ensures e.OtherEvent? ==> r == Ok(AppContinue) && unchanged(this) && unchanged(device)
      ensures e.WindowResizedEvent? && !msaaGranted ==>
        && r == Err("Couldn't create GPU texture") && msaaTexture == Null
        && device.live == old(device.live) - {old(msaaTexture)}
        && device.log == old(device.log) + [Released(old(msaaTexture))]
      ensures e.WindowResizedEvent? && msaaGranted && !depthGranted ==>
        var msaa := AttachmentInfo(device.swapchainFormat, ColorTargetUsage, width, height, sampleCount);
        && r == Err("Couldn't create GPU texture") && msaaTexture == old(device.next) && depthStencilTexture == Null
        && device.live == (old(device.live) - {old(msaaTexture)})[msaaTexture := Texture(msaa, [])]
                          - {old(depthStencilTexture)}
        && device.log == old(device.log) + [Released(old(msaaTexture)), Created(msaaTexture, Texture(msaa, [])),
                                            Released(old(depthStencilTexture))]
      ensures e.WindowResizedEvent? && msaaGranted && depthGranted ==>
        var msaa := AttachmentInfo(device.swapchainFormat, ColorTargetUsage, width, height, sampleCount);
        var depth := AttachmentInfo(depthStencilFormat, DepthStencilTargetUsage, width, height, sampleCount);
        && r == Ok(AppContinue) && Ready()
        && msaaTexture == old(device.next) && depthStencilTexture == old(device.next) + 1
        && device.live == ((old(device.live) - {old(msaaTexture)})[msaaTexture := Texture(msaa, [])]
                           - {old(depthStencilTexture)})[depthStencilTexture := Texture(depth, [])]
        && device.log == old(device.log) + ResizeCalls(old(msaaTexture), old(depthStencilTexture),
                                                       msaaTexture, depthStencilTexture, msaa, depth)
        && |device.live| == |old(device.live)|
    {
      match e
      case QuitEvent =>
        return Ok(AppSuccess);
      case OtherEvent =>
        return Ok(AppContinue);
      case WindowResizedEvent =>
        var resized := Resize(width, height, msaaGranted, depthGranted);
        if resized.Err? {
          return Err(resized.error);
        }
        return Ok(AppContinue);
    }

    /** The graphics pipeline (src/main.cpp:185-240): stored only when it was
        created. */
    method CreatePipeline(vertexShader: Handle, fragmentShader: Handle, granted: bool) returns (r: Result<()>)
      requires device.Valid()
      modifies this`pipeline, device
      ensures device.Valid() && device.surfaces == old(device.surfaces)
      ensures var info := PipelineFor(vertexShader, fragmentShader, device.swapchainFormat, sampleCount, depthStencilFormat);
              && (granted ==>
                    && r == Ok(()) && pipeline == old(device.next) && device.next == pipeline + 1
                    && device.live == old(device.live)[pipeline := Pipeline(info)]
                    && device.log == old(device.log) + [Created(pipeline, Pipeline(info))])
              && (!granted ==> r == Err("Couldn't create GPU graphics pipeline") && pipeline == old(pipeline)
                               && unchanged(device))
    {
      var info := PipelineFor(vertexShader, fragmentShader, device.swapchainFormat, sampleCount, depthStencilFormat);
      var created := device.Create(Pipeline(info), granted);
      if created == Null {
        return Err("Couldn't create GPU graphics pipeline");
      }
      pipeline := created;
      r := Ok(());
    }

    /** Both render targets at the window's size (src/main.cpp:232-233). */
    method CreateRenderTargets(width: int, height: int, msaaGranted: bool, depthGranted: bool) returns (r: Result<()>)
      requires device.Valid()
      modifies this`msaaTexture, this`depthStencilTexture, device
      ensures device.Valid() && device.surfaces == old(device.surfaces)
      ensures r.Ok? <==> msaaGranted && depthGranted
      ensures r.Err? ==> r.error == "Couldn't create GPU texture"
      ensures r.Ok? ==>
        var msaa := AttachmentInfo(device.swapchainFormat, ColorTargetUsage, width, height, sampleCount);
        var depth := AttachmentInfo(depthStencilFormat, DepthStencilTargetUsage, width, height, sampleCount);
        && msaaTexture == old(device.next) && depthStencilTexture == old(device.next) + 1
        && device.next == old(device.next) + 2
        && device.live == old(device.live)[msaaTexture := Texture(msaa, [])][depthStencilTexture := Texture(depth, [])]
        && device.log == old(device.log) + [Created(msaaTexture, Texture(msaa, [])),
                                            Created(depthStencilTexture, Texture(depth, []))]
    {
      r := CreateMsaaTexture(width, height, msaaGranted);
      if r.Err? {
        return;
      }
      r := CreateDepthStencilTexture(width, height, depthGranted);
    }

    /** The depth-stencil format probe (src/main.cpp:163-173), stored in the
        state. */
    method ProbeDepthStencilFormat() returns (r: Result<()>)
      modifies this`depthStencilFormat
      ensures var choice := ChooseDepthStencilFormat(device.depthStencilFormats);
              && (choice.Ok? ==> r == Ok(()) && depthStencilFormat == choice.value)
              && (choice.Err? ==> r == Err(choice.error) && depthStencilFormat == old(depthStencilFormat))
    {
      var choice := ChooseDepthStencilFormat(device.depthStencilFormats);
      if choice.Err? {
        return Err(choice.error);
      }
      depthStencilFormat := choice.value;
      r := Ok(());
    }

    /** The depth-stencil format probed, then both shaders loaded
        (src/main.cpp:163-183); on success, the vertex shader's handle, the
        fragment shader's being the next one. */
    method PrepareShaders(basePath: string, files: map<string, seq<Byte>>, o: InitOutcomes) returns (r: Result<Handle>)
      requires device.Valid()
      modifies this`depthStencilFormat, device
      ensures device.Valid() && device.surfaces == old(device.surfaces)
      ensures ChooseDepthStencilFormat(device.depthStencilFormats).Err? ==>
                r == Err(ChooseDepthStencilFormat(device.depthStencilFormats).error) && unchanged(device)
      ensures r.Ok? <==> && ChooseDepthStencilFormat(device.depthStencilFormats).Ok?
                         && VertexShaderInfo(device.shaderFormats, basePath, files).Ok? && o.vertexShader
                         && FragmentShaderInfo(device.shaderFormats, basePath, files).Ok? && o.fragmentShader
      ensures r.Ok? ==>
        var v := VertexShaderInfo(device.shaderFormats, basePath, files).value;
        var f := FragmentShaderInfo(device.shaderFormats, basePath, files).value;
        && depthStencilFormat == ChooseDepthStencilFormat(device.depthStencilFormats).value
        && r.value == old(device.next) && device.next == r.value + 2
        && device.live == old(device.live)[r.value := Shader(v)][r.value + 1 := Shader(f)]
        && device.log == old(device.log) + [Created(r.value, Shader(v)), Created(r.value + 1, Shader(f))]
    {
      var probed := ProbeDepthStencilFormat();
      if probed.Err? {
        return Err(probed.error);
      }
      var shaders := LoadShaders(device, basePath, files, o.vertexShader, o.fragmentShader);
      if shaders.Err? {
        return Err(shaders.error);
      }
      r := Ok(shaders.value.0);
    }

    /** The pipeline and the render targets built, then the shaders released
        (src/main.cpp:230-236). */
    method BuildPipeline(vertexShader: Handle, fragmentShader: Handle, width: int, height: int, o: InitOutcomes)
      returns (r: Result<()>)
      requires device.Valid() && vertexShader in device.live && fragmentShader in device.live
      requires fragmentShader == vertexShader + 1 && device.next == vertexShader + 2
      modifies this`pipeline, this`msaaTexture, this`depthStencilTexture, device
      ensures device.Valid() && device.surfaces == old(device.surfaces)
      ensures r.Ok? <==> o.pipeline && o.msaaTexture && o.depthStencilTexture
      ensures r.Err? ==> r.error == (if !o.pipeline then "Couldn't create GPU graphics pipeline"
                                     else "Couldn't create GPU texture")
      ensures r.Ok? ==>
        var info := PipelineFor(vertexShader, fragmentShader, device.swapchainFormat, sampleCount, depthStencilFormat);
        var msaa := AttachmentInfo(device.swapchainFormat, ColorTargetUsage, width, height, sampleCount);
        var depth := AttachmentInfo(depthStencilFormat, DepthStencilTargetUsage, width, height, sampleCount);
        && pipeline == old(device.next) && msaaTexture == pipeline + 1 && depthStencilTexture == pipeline + 2
        && device.next == pipeline + 3
        && device.live == old(device.live)[pipeline := Pipeline(info)][msaaTexture := Texture(msaa, [])]
                                          [depthStencilTexture := Texture(depth, [])]
                          - {vertexShader} - {fragmentShader}
        && device.log == old(device.log) + [Created(vertexShader + 2, Pipeline(info)),
                                            Created(vertexShader + 3, Texture(msaa, [])),
                                            Created(vertexShader + 4, Texture(depth, [])),
                                            Released(vertexShader), Released(fragmentShader)]
    {
      r := CreatePipeline(vertexShader, fragmentShader, o.pipeline);
      if r.Err? {
        return;
      }
      r := CreateRenderTargets(width, height, o.msaaTexture, o.depthStencilTexture);
      if r.Err? {
        return;
      }
      device.Release(vertexShader);
      device.Release(fragmentShader);
    }

    /** SDL_AppInit up to the sampler (src/main.cpp:163-236): the probed
        depth-stencil format, the pipeline and both render targets; the
        shaders exist only while the pipeline is built. */
    method InitPipeline(basePath: string, files: map<string, seq<Byte>>, width: int, height: int, o: InitOutcomes)
      returns (r: Result<()>)
      requires device.Valid()
      modifies this`depthStencilFormat, this`pipeline, this`msaaTexture, this`depthStencilTexture, device
      ensures device.Valid() && device.surfaces == old(device.surfaces)
      ensures ChooseDepthStencilFormat(device.depthStencilFormats).Err? ==>
                r == Err(ChooseDepthStencilFormat(device.depthStencilFormats).error) && unchanged(device)
      ensures r.Ok? <==> && ChooseDepthStencilFormat(device.depthStencilFormats).Ok?
                         && VertexShaderInfo(device.shaderFormats, basePath, files).Ok? && o.vertexShader
                         && FragmentShaderInfo(device.shaderFormats, basePath, files).Ok? && o.fragmentShader
                         && o.pipeline && o.msaaTexture && o.depthStencilTexture
      ensures r.Ok? ==>
        var first := old(device.next);
        && depthStencilFormat == ChooseDepthStencilFormat(device.depthStencilFormats).value
        && pipeline == first + 2 && msaaTexture == first + 3 && depthStencilTexture == first + 4
        && device.next == first + 5
        && var msaa := AttachmentInfo(device.swapchainFormat, ColorTargetUsage, width, height, sampleCount);
           var depth := AttachmentInfo(depthStencilFormat, DepthStencilTargetUsage, width, height, sampleCount);
           var info := PipelineFor(first, first + 1, device.swapchainFormat, sampleCount, depthStencilFormat);
        && device.live == old(device.live)[first + 2 := Pipeline(info)][first + 3 := Texture(msaa, [])]
                                          [first + 4 := Texture(depth, [])]
        && device.log == old(device.log) + PipelineCalls(first, VertexShaderInfo(device.shaderFormats, basePath, files).value,
                                                         FragmentShaderInfo(device.shaderFormats, basePath, files).value,
                                                         info, msaa, depth)
    {
      ghost var v := VertexShaderInfo(device.shaderFormats, basePath, files);
      ghost var f := FragmentShaderInfo(device.shaderFormats, basePath, files);
      var shaders := PrepareShaders(basePath, files, o);
      if shaders.Err? {
        return Err(shaders.error);
      }
      var first := shaders.value;
      ghost var log1 := device.log;
      r := BuildPipeline(first, first + 1, width, height, o);
      if r.Err? {
        return;
      }
      ghost var msaa := AttachmentInfo(device.swapchainFormat, ColorTargetUsage, width, height, sampleCount);
      ghost var depth := AttachmentInfo(depthStencilFormat, DepthStencilTargetUsage, width, height, sampleCount);
      ghost var info := PipelineFor(first, first + 1, device.swapchainFormat, sampleCount, depthStencilFormat);
      ShadersGone(old(device.live), first, Pipeline(info), Texture(msaa, []), Texture(depth, []),
                  Shader(v.value), Shader(f.value));
      PipelineLogged(old(device.log), log1, device.log, first, v.value, f.value, info, msaa, depth);
    }

    /** The sampler, the image and the texture it is uploaded to
        (src/main.cpp:242-263). The sampler's creation is not checked, so a
        refused sampler leaves `sampler` Null and initialisation goes on; the
        image is loaded with four channels by LoadImage as written. A null
        surface from a failed conversion is read at src/main.cpp:258; the
        model stops there with NullImageRead. On success, the surface holding
        the image. */
    method InitTexture(basePath: string, o: InitOutcomes) returns (r: Result<Handle>)
      requires device.Valid()
      requires o.image.Some? ==> o.image.value.WellFormed()
      requires o.convertedImage.Some? ==> o.convertedImage.value.WellFormed()
                                          && o.convertedImage.value.format == PixelFormatAbgr8888
      modifies this`sampler, this`texture, device
      ensures device.Valid()
      ensures sampler == (if o.sampler then old(device.next) else Null)
      ensures o.sampler ==> sampler in device.live && device.live[sampler] == Sampler(LinearClamp)
      ensures r.Ok? <==> ImageAvailable(o.image, o.convertedImage) && o.texture
      ensures r.Err? ==> r.error == (if o.image.None? then "Couldn't load image"
                                     else if !ImageAvailable(o.image, o.convertedImage) then NullImageRead
                                     else "Couldn't create GPU texture")
      ensures o.image.Some? && !ImageAvailable(o.image, o.convertedImage) ==>
        device.surfaces == old(device.surfaces) && texture == old(texture)
      ensures r.Ok? ==>
        && r.value in device.surfaces && r.value !in old(device.surfaces)
        && device.surfaces[r.value] == (if o.image.value.format == PixelFormatAbgr8888 then o.image.value
                                        else o.convertedImage.value)
        && device.surfaces[r.value].format == PixelFormatAbgr8888 && device.surfaces[r.value].WellFormed()
        && texture != Null && texture !in old(device.live) && texture != sampler
        && var withSampler := if o.sampler then old(device.live)[sampler := Sampler(LinearClamp)] else old(device.live);
           device.live == withSampler[texture := Texture(ImageTextureInfo(device.surfaces[r.value]), [])]
    {
      sampler := device.Create(Sampler(LinearClamp), o.sampler);
      r := LoadImage(device, basePath, "viking_room.png", 4, o.image, o.convertedImage);
      if r.Err? {
        return;
      }
      if r.value == Null {
        return Err(NullImageRead);
      }
      var s := device.surfaces[r.value];
      texture := device.Create(Texture(ImageTextureInfo(s), []), o.texture);
      if texture == Null {
        return Err("Couldn't create GPU texture");
      }
    }

    /** SDL_AppInit up to the model (src/main.cpp:163-263): the pipeline, the
        render targets, the sampler and the texture; on success, the surface
        holding the image, which the upload then consumes. */
    method InitObjects(basePath: string, files: map<string, seq<Byte>>, width: int, height: int, o: InitOutcomes)
      returns (r: Result<Handle>)
      requires device.Valid()
      requires o.image.Some? ==> o.image.value.WellFormed()
      requires o.convertedImage.Some? ==>
        o.convertedImage.value.WellFormed() && o.convertedImage.value.format == PixelFormatAbgr8888
      modifies this`depthStencilFormat, this`pipeline, this`msaaTexture, this`depthStencilTexture,
               this`sampler, this`texture, device
      ensures device.Valid()
      ensures r.Ok? <==> && ChooseDepthStencilFormat(device.depthStencilFormats).Ok?
                         && VertexShaderInfo(device.shaderFormats, basePath, files).Ok? && o.vertexShader
                         && FragmentShaderInfo(device.shaderFormats, basePath, files).Ok? && o.fragmentShader
                         && o.pipeline && o.msaaTexture && o.depthStencilTexture
                         && ImageAvailable(o.image, o.convertedImage) && o.texture
      ensures r.Ok? ==>
        && Ready()
        && pipeline in device.live && device.live[pipeline].Pipeline?
        && texture in device.live && device.live[texture].Texture?
        && r.value in device.surfaces
        && device.surfaces[r.value] == (if o.image.value.format == PixelFormatAbgr8888 then o.image.value
                                        else o.convertedImage.value)
    {
      var built := InitPipeline(basePath, files, width, height, o);
      if built.Err? {
        return Err(built.error);
      }
      r := InitTexture(basePath, o);
    }

    /** SDL_AppInit from the depth-stencil probe on (src/main.cpp:163-378):
        the pipeline and render targets, the sampler and texture, the model
        and its upload. It succeeds exactly when every step does, and then
        every object a frame binds is alive, the model is the re-imported
        scene's, and the GPU buffers hold its vertex and index bytes. */
    method Init(basePath: string, files: map<string, seq<Byte>>, width: int, height: int, o: InitOutcomes)
      returns (r: Result<()>)
      requires device.Valid()
      requires o.image.Some? ==> o.image.value.WellFormed() && o.image.value.pitch * o.image.value.h < 0x8000_0000
      requires o.convertedImage.Some? ==>
        && o.convertedImage.value.WellFormed() && o.convertedImage.value.format == PixelFormatAbgr8888
        && o.convertedImage.value.pitch * o.convertedImage.value.h < 0x8000_0000
      requires o.scene.Some? ==>
        && ModelLoading.WellFormedMeshes(o.scene.value.meshes)
        && VertexBytesSize(ModelLoading.SceneVertices(o.scene.value.meshes))
           + IndexBytesSize(ModelLoading.SceneIndices(o.scene.value.meshes)) < U32Limit
      modifies this, device
      ensures device.Valid()
      ensures r.Ok? <==> && ChooseDepthStencilFormat(device.depthStencilFormats).Ok?
                         && VertexShaderInfo(device.shaderFormats, basePath, files).Ok? && o.vertexShader
                         && FragmentShaderInfo(device.shaderFormats, basePath, files).Ok? && o.fragmentShader
                         && o.pipeline && o.msaaTexture && o.depthStencilTexture
                         && ImageAvailable(o.image, o.convertedImage) && o.texture
                         && o.scene.Some? && UploadError(o.upload).None?
      ensures r.Ok? ==>
        && Ready()
        && pipeline in device.live && device.live[pipeline].Pipeline?
        && texture in device.live && device.live[texture].Texture?
        && model == ModelLoading.Model(ModelLoading.SceneVertices(o.scene.value.meshes),
                                       ModelLoading.SceneIndices(o.scene.value.meshes))
        && vertexBuffer in device.live && device.live[vertexBuffer] == Buffer(VertexUsage, MeshVertexBytes(model.vertices))
        && indexBuffer in device.live && device.live[indexBuffer] == Buffer(IndexUsage, MeshIndexBytes(model.indices))
    {
      var image := InitObjects(basePath, files, width, height, o);
      if image.Err? {
        return Err(image.error);
      }
      r := LoadAndUpload(image.value, o.scene, o.upload);
    }

    /** The model imported a second time and assigned (src/main.cpp:269), then
        uploaded with the image (src/main.cpp:271-378). Every other GPU object
        is left as it was. */
    method LoadAndUpload(image: Handle, scene: Option<ModelLoading.Scene>, o: UploadOutcomes) returns (r: Result<()>)
      requires device.Valid() && image in device.surfaces
      requires texture in device.live && device.live[texture].Texture?
      requires device.surfaces[image].pitch * device.surfaces[image].h < 0x8000_0000
      requires scene.Some? ==>
        && ModelLoading.WellFormedMeshes(scene.value.meshes)
        && VertexBytesSize(ModelLoading.SceneVertices(scene.value.meshes))
           + IndexBytesSize(ModelLoading.SceneIndices(scene.value.meshes)) < U32Limit
      modifies this`model, this`vertexBuffer, this`indexBuffer, device
      ensures device.Valid()
      ensures r.Ok? <==> scene.Some? && UploadError(o).None?
      ensures r.Err? ==> r.error == (if scene.None? then "Couldn't load model" else UploadError(o).value)
      ensures r.Ok? ==>
        && model == ModelLoading.Model(ModelLoading.SceneVertices(scene.value.meshes),
                                       ModelLoading.SceneIndices(scene.value.meshes))
        && vertexBuffer in device.live && device.live[vertexBuffer] == Buffer(VertexUsage, MeshVertexBytes(model.vertices))
        && indexBuffer in device.live && device.live[indexBuffer] == Buffer(IndexUsage, MeshIndexBytes(model.indices))
        && texture in device.live && device.live[texture].Texture?
        && forall h :: h in old(device.live) && h != texture ==> h in device.live && device.live[h] == old(device.live[h])
    {
      var loaded := ModelLoading.LoadModel(scene);
      if loaded.Err? {
        return Err(loaded.error);
      }
      model := loaded.value;
      r := Upload(image, o);
    }

    /** The vertex and index buffers (src/main.cpp:271-290), sized for the
        model's vertices and indices. */
    method CreateGeometryBuffers(vertexGranted: bool, indexGranted: bool) returns (r: Result<()>)
      requires device.Valid()
      modifies this`vertexBuffer, this`indexBuffer, device
      ensures device.Valid() && device.surfaces == old(device.surfaces)
      ensures !vertexGranted ==> r == Err("Couldn't create GPU buffer") && vertexBuffer == Null && unchanged(device)
      ensures vertexGranted ==> vertexBuffer == old(device.next)
      ensures vertexGranted && !indexGranted ==>
        && r == Err("Couldn't create GPU buffer") && indexBuffer == Null && device.next == old(device.next) + 1
        && device.live == old(device.live)[vertexBuffer := Buffer(VertexUsage, Zeros(VertexBytesSize(model.vertices)))]
      ensures vertexGranted && indexGranted ==>
        var vertices, indices := Buffer(VertexUsage, Zeros(VertexBytesSize(model.vertices))),
                                 Buffer(IndexUsage, Zeros(IndexBytesSize(model.indices)));
        && r == Ok(()) && indexBuffer == old(device.next) + 1 && device.next == old(device.next) + 2
        && device.live == old(device.live)[vertexBuffer := vertices][indexBuffer := indices]
        && device.log == old(device.log) + [Created(vertexBuffer, vertices), Created(indexBuffer, indices)]
    {
      vertexBuffer := device.Create(Buffer(VertexUsage, Zeros(VertexBytesSize(model.vertices))), vertexGranted);
      if vertexBuffer == Null {
        return Err("Couldn't create GPU buffer");
      }
      indexBuffer := device.Create(Buffer(IndexUsage, Zeros(IndexBytesSize(model.indices))), indexGranted);
      if indexBuffer == Null {
        return Err("Couldn't create GPU buffer");
      }
      r := Ok(());
    }

    /** The first half of the upload (src/main.cpp:271-342): the vertex and
        index buffers created, then both staging buffers created and filled. */
    method StageUpload(image: Handle, o: UploadOutcomes) returns (r: Result<()>)
      requires device.Valid() && image in device.surfaces
      modifies this`vertexBuffer, this`indexBuffer, device
      ensures device.Valid() && device.surfaces == old(device.surfaces)
      ensures r.Err? <==> !o.vertexBuffer || !o.indexBuffer || !o.geometryStaging || !o.geometryMap
                          || !o.pixelStaging || !o.pixelMap
      ensures r.Err? ==> r.error == UploadError(o).value
      ensures r.Ok? ==>
        var first, s := old(device.next), device.surfaces[image];
        var vsize, isize := VertexBytesSize(model.vertices), IndexBytesSize(model.indices);
        && vertexBuffer == first && indexBuffer == first + 1 && device.next == first + 4
        && device.live == old(device.live)[first := Buffer(VertexUsage, Zeros(vsize))]
                                          [first + 1 := Buffer(IndexUsage, Zeros(isize))]
                                          [first + 2 := TransferBuffer(GeometryBytes(model.vertices, model.indices))]
                                          [first + 3 := TransferBuffer(s.pixels)]
        && device.log == old(device.log) + StagingCalls(first, vsize, isize, s)
    {
      r := CreateGeometryBuffers(o.vertexBuffer, o.indexBuffer);
      if r.Err? {
        return;
      }
      r := StageAll(device, model.vertices, model.indices, device.surfaces[image], o);
    }

    /** The second half of the upload (src/main.cpp:344-378): the copy pass
        recorded and submitted, then the staging buffers released and the
        surface destroyed. */
    method FinishUpload(first: Handle, image: Handle, acquired: bool, submitted: bool) returns (r: Result<()>)
      requires device.Valid() && image in device.surfaces
      requires first == vertexBuffer && first + 1 == indexBuffer
      requires first in device.live && device.live[first] == Buffer(VertexUsage, Zeros(VertexBytesSize(model.vertices)))
      requires first + 1 in device.live && device.live[first + 1] == Buffer(IndexUsage, Zeros(IndexBytesSize(model.indices)))
      requires first + 2 in device.live && device.live[first + 2] == TransferBuffer(GeometryBytes(model.vertices, model.indices))
      requires first + 3 in device.live && device.live[first + 3] == TransferBuffer(device.surfaces[image].pixels)
      requires texture in device.live && device.live[texture].Texture? && texture < first
      modifies device
      ensures device.Valid() && device.next == old(device.next)
      ensures r.Err? <==> !acquired || !submitted
      ensures r.Err? ==> r.error == (if !acquired then "Couldn't acquire GPU command buffer"
                                     else "Couldn't submit GPU command buffer")
                         && device.surfaces == old(device.surfaces)
      ensures r.Ok? ==>
        var s := old(device.surfaces[image]);
        var cs := UploadCommands(first, VertexBytesSize(model.vertices), IndexBytesSize(model.indices), s, texture);
        && device.live == old(device.live)[first := Buffer(VertexUsage, MeshVertexBytes(model.vertices))]
                                          [first + 1 := Buffer(IndexUsage, MeshIndexBytes(model.indices))]
                                          [texture := Texture(old(device.live[texture].texture), s.pixels)]
                          - {first + 2} - {first + 3}
        && device.surfaces == old(device.surfaces) - {image}
        && device.log == old(device.log) + Recordings(cs) + CleanupCalls(first, image)
    {
      r := RecordUploads(device, first, model.vertices, model.indices, device.surfaces[image], texture, acquired, submitted);
      if r.Err? {
        return;
      }
      ReleaseStaging(device, first, image);
    }

    /** The initial upload (src/main.cpp:271-378): the GPU buffers created,
        the model's vertices and indices and the image's pixels staged and
        copied into the vertex buffer, the index buffer and the texture, then
        the staging buffers released and the surface destroyed. Each step that
        fails throws its own message. */
    method Upload(image: Handle, o: UploadOutcomes) returns (r: Result<()>)
      requires device.Valid() && image in device.surfaces
      requires texture in device.live && device.live[texture].Texture?
      requires VertexBytesSize(model.vertices) + IndexBytesSize(model.indices) < U32Limit
      requires device.surfaces[image].pitch * device.surfaces[image].h < 0x8000_0000
      modifies this`vertexBuffer, this`indexBuffer, device
      ensures device.Valid()
      ensures r.Err? <==> UploadError(o).Some?
      ensures r.Err? ==> r.error == UploadError(o).value && device.surfaces == old(device.surfaces)
      ensures r.Ok? ==>
        var first, s := old(device.next), old(device.surfaces[image]);
        && vertexBuffer == first && indexBuffer == first + 1 && device.next == first + 4
        && device.live == old(device.live)[vertexBuffer := Buffer(VertexUsage, MeshVertexBytes(model.vertices))]
                                          [indexBuffer := Buffer(IndexUsage, MeshIndexBytes(model.indices))]
                                          [texture := Texture(old(device.live[texture].texture), s.pixels)]
        && device.surfaces == old(device.surfaces) - {image}
        && device.log == old(device.log)
             + UploadCalls(first, VertexBytesSize(model.vertices), IndexBytesSize(model.indices), image, s, texture)
    {
      var first := device.next;
      ghost var s := device.surfaces[image];
      ghost var live0, log0 := device.live, device.log;
      r := StageUpload(image, o);
      if r.Err? {
        return;
      }
      ghost var log1 := device.log;
      r := FinishUpload(first, image, o.commandBuffer, o.submit);
      if r.Err? {
        return;
      }
      var vs, xs := model.vertices, model.indices;
      UploadedLive(live0, first, texture, MeshVertexBytes(vs), MeshIndexBytes(xs), GeometryBytes(vs, xs), s.pixels,
                   VertexBytesSize(vs), IndexBytesSize(xs), live0[texture].texture);
      AppendThree(log0, StagingCalls(first, VertexBytesSize(vs), IndexBytesSize(xs), s),
                  Recordings(UploadCommands(first, VertexBytesSize(vs), IndexBytesSize(xs), s, texture)),
                  CleanupCalls(first, image));
    }

    /** The render pass of a frame (src/main.cpp:423-465). */
    method RecordRenderPass(swapchainTexture: Handle, t: Transform)
      requires device.Valid()
      modifies device
      ensures device.Valid() && device.live == old(device.live) && device.surfaces == old(device.surfaces)
      ensures device.next == old(device.next)
      ensures device.log == old(device.log)
                            + Recordings(RenderPassCommands(CurrentBindings(), swapchainTexture, t, ToU32(|model.indices|)))
    {
      var b := CurrentBindings();
      device.Record(RenderPassBegun(ColorTargetInfo(b.msaaTexture, ClearColor, Clear, Resolve, swapchainTexture),
                                    DepthStencilTargetInfo(b.depthStencilTexture, OneF32, Clear)));
      device.Record(PipelineBound(b.pipeline));
      device.Record(VertexBuffersBound(0, [BufferBinding(b.vertexBuffer, 0)]));
      device.Record(IndexBufferBound(BufferBinding(b.indexBuffer, 0), Index32));
      device.Record(FragmentSamplersBound(0, [TextureSamplerBinding(b.texture, b.sampler)]));
      device.Record(VertexUniformPushed(0, t, MatrixSize));
      device.Record(IndexedPrimitivesDrawn(ToU32(|model.indices|), 1, 0, 0, 0));
      device.Record(RenderPassEnded);
    }

    /** The swapchain texture acquired, and drawn into when there is one. */
    method RecordTarget(swapchainTexture: Handle, t: Transform)
      requires device.Valid()
      modifies device
      ensures device.Valid() && device.live == old(device.live) && device.surfaces == old(device.surfaces)
      ensures device.next == old(device.next)
      ensures device.log == old(device.log) + [Recorded(SwapchainTextureAcquired(swapchainTexture))]
        + (if swapchainTexture == Null then []
           else Recordings(RenderPassCommands(CurrentBindings(), swapchainTexture, t, ToU32(|model.indices|))))
    {
      device.Record(SwapchainTextureAcquired(swapchainTexture));
      if swapchainTexture != Null {
        RecordRenderPass(swapchainTexture, t);
      }
    }

    /** The frame once the command buffer is acquired (src/main.cpp:413-470):
        the swapchain texture, the render pass when there is a texture to
        draw to, then submission. `log0` is the log before the acquisition. */
    method RecordFrame(swapchainTexture: Handle, t: Transform, submitted: bool, ghost log0: seq<Call>)
      returns (r: Result<AppResult>)
      requires device.Valid() && device.log == log0 + [Recorded(CommandBufferAcquired)]
      modifies device
      ensures device.Valid() && device.live == old(device.live) && device.surfaces == old(device.surfaces)
      ensures device.next == old(device.next)
      ensures submitted ==>
        var frame := Recordings(FrameCommands(CurrentBindings(), swapchainTexture, t, ToU32(|model.indices|)));
        r == Ok(AppContinue) && device.log == log0 + frame
      ensures !submitted ==>
        var frame := Recordings(FrameCommands(CurrentBindings(), swapchainTexture, t, ToU32(|model.indices|)));
        r == Err("Couldn't submit GPU command buffer") && device.log == log0 + frame[..|frame| - 1]
    {
      ghost var b, n := CurrentBindings(), ToU32(|model.indices|);
      ghost var mid := if swapchainTexture == Null then [] else Recordings(RenderPassCommands(b, swapchainTexture, t, n));
      ghost var unsubmitted := [Recorded(CommandBufferAcquired), Recorded(SwapchainTextureAcquired(swapchainTexture))] + mid;
      FrameRecorded(b, swapchainTexture, t, n);
      RecordTarget(swapchainTexture, t);
      assert device.log == log0 + unsubmitted;
      if !submitted {
        return Err("Couldn't submit GPU command buffer");
      }
      device.Record(Submitted);
      AppendTwo(log0, unsubmitted, [Recorded(Submitted)]);
      r := Ok(AppContinue);
    }

    /** SDL_AppIterate (src/main.cpp:407-471): one frame. The matrix is
        computed from the ticks and the window's aspect ratio. */
    method Iterate(ticks: nat, width: nat, height: nat, acquired: bool, swapchain: Swapchain, submitted: bool)
      returns (r: Result<AppResult>)
      requires device.Valid()
      modifies device
      ensures device.Valid() && device.live == old(device.live) && device.surfaces == old(device.surfaces)
      ensures device.next == old(device.next)
      ensures !acquired ==> r == Err("Couldn't acquire GPU command buffer") && device.log == old(device.log)
      ensures acquired && swapchain.AcquireFailed? ==>
        r == Err("Couldn't acquire swapchain texture") && device.log == old(device.log) + [Recorded(CommandBufferAcquired)]
      ensures acquired && swapchain.Acquired? && submitted ==>
        var frame := Recordings(FrameCommands(CurrentBindings(), swapchain.texture, Transform(ticks, width, height),
                                              ToU32(|model.indices|)));
        r == Ok(AppContinue) && device.log == old(device.log) + frame
      ensures acquired && swapchain.Acquired? && !submitted ==>
        var frame := Recordings(FrameCommands(CurrentBindings(), swapchain.texture, Transform(ticks, width, height),
                                              ToU32(|model.indices|)));
        r == Err("Couldn't submit GPU command buffer") && device.log == old(device.log) + frame[..|frame| - 1]
    {
      if !acquired {
        return Err("Couldn't acquire GPU command buffer");
      }
      ghost var log0 := device.log;
      device.Record(CommandBufferAcquired);
      assert device.log == log0 + [Recorded(CommandBufferAcquired)];
      if swapchain.AcquireFailed? {
        return Err("Couldn't acquire swapchain texture");
      }
      r := RecordFrame(swapchain.texture, Transform(ticks, width, height), submitted, log0);
    }
  }
}
