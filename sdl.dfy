/** The SDL library as the renderer sees it: GPU objects behind handles,
    surfaces behind handles, and the calls made on them. The library's own
    work (drivers, pixel conversion, image decoding, the GPU itself) is not
    modelled; where it may fail, whether it succeeds is a parameter. A handle is
    a positive number and 0 is the null pointer. `live` holds the GPU objects
    the application owns, `surfaces` the surfaces it owns, and `log` every call
    in order. */
module Sdl {
  import opened Wrappers
  import opened Layout
  import Shaders

  type Handle = nat

  const Null: Handle := 0

  datatype TextureFormat =
    | R8G8B8A8Unorm
    | B8G8R8A8Unorm
    | D24UnormS8Uint
    | D32FloatS8Uint
    | OtherTextureFormat(code: nat)

  datatype TextureUsage = SamplerUsage | ColorTargetUsage | DepthStencilTargetUsage

  datatype SampleCount = Samples1 | Samples2 | Samples4 | Samples8

  /** SDL_GPUTextureCreateInfo (2D textures only). */
  datatype TextureInfo = TextureInfo(
    format: TextureFormat,
    usage: TextureUsage,
    width: U32,
    height: U32,
    layerCountOrDepth: U32,
    numLevels: U32,
    sampleCount: SampleCount)

  datatype BufferUsage = VertexUsage | IndexUsage

  datatype Filter = Nearest | Linear
  datatype MipmapMode = MipmapNearest | MipmapLinear
  datatype AddressMode = Repeat | MirroredRepeat | ClampToEdge

  /** SDL_GPUSamplerCreateInfo */
  datatype SamplerInfo = SamplerInfo(
    minFilter: Filter,
    magFilter: Filter,
    mipmapMode: MipmapMode,
    addressU: AddressMode,
    addressV: AddressMode,
    addressW: AddressMode)

  datatype VertexElementFormat = Float2 | Float3
  datatype VertexInputRate = PerVertex | PerInstance
  datatype CompareOp = Never | Less | Equal | LessOrEqual | Greater | NotEqual | GreaterOrEqual | Always

  /** SDL_GPUVertexAttribute */
  datatype VertexAttribute = VertexAttribute(location: nat, bufferSlot: nat, format: VertexElementFormat, offset: nat)

  /** SDL_GPUVertexBufferDescription */
  datatype VertexBufferDescription = VertexBufferDescription(
    slot: nat, pitch: nat, inputRate: VertexInputRate, instanceStepRate: nat)

  /** SDL_GPUGraphicsPipelineCreateInfo, the parts the renderer sets. */
  datatype PipelineInfo = PipelineInfo(
    vertexShader: Handle,
    fragmentShader: Handle,
    vertexBuffers: seq<VertexBufferDescription>,
    attributes: seq<VertexAttribute>,
    sampleCount: SampleCount,
    compareOp: CompareOp,
    enableDepthTest: bool,
    enableDepthWrite: bool,
    colorTargetFormats: seq<TextureFormat>,
    depthStencilFormat: TextureFormat,
    hasDepthStencilTarget: bool)

  /** A GPU object. A buffer's and a transfer buffer's size is the length of
      its contents; a texture's pixels are the bytes last uploaded to it. The
      contents a buffer or texture is created with are unspecified in SDL; the
      model starts them zeroed (buffers) or empty (textures). */
  datatype Resource =
    | Shader(shader: Shaders.ShaderCreateInfo)
    | Pipeline(pipeline: PipelineInfo)
    | Texture(texture: TextureInfo, pixels: seq<Byte>)
    | Buffer(usage: BufferUsage, contents: seq<Byte>)
    | TransferBuffer(bytes: seq<Byte>)
    | Sampler(sampler: SamplerInfo)

  /** SDL_PixelFormat */
  type PixelFormat = nat

  const PixelFormatAbgr8888: PixelFormat := 0x1676_2004

  /** SDL_Surface: format, w, h, pitch and the pixel bytes, `pitch` per row. */
  datatype Surface = Surface(format: PixelFormat, w: nat, h: nat, pitch: nat, pixels: seq<Byte>) {
    predicate WellFormed() {
      |pixels| == pitch * h
    }
  }

  datatype FColor = FColor(r: F32, g: F32, b: F32, a: F32)
  datatype LoadOp = Load | Clear | DontCare
  datatype StoreOp = Store | DontCareStore | Resolve | ResolveAndStore
  datatype IndexElementSize = Index16 | Index32

  /** SDL_GPUColorTargetInfo, the parts the renderer sets. */
  datatype ColorTargetInfo = ColorTargetInfo(
    texture: Handle, clearColor: FColor, loadOp: LoadOp, storeOp: StoreOp, resolveTexture: Handle)

  /** SDL_GPUDepthStencilTargetInfo, the parts the renderer sets. */
  datatype DepthStencilTargetInfo = DepthStencilTargetInfo(texture: Handle, clearDepth: F32, loadOp: LoadOp)

  datatype BufferBinding = BufferBinding(buffer: Handle, offset: nat)
  datatype TextureSamplerBinding = TextureSamplerBinding(texture: Handle, sampler: Handle)

  /** What the model-view-projection matrix is computed from: the tick count
      and the window size (through its aspect ratio). The matrix arithmetic is
      floating point and is not modelled. */
  datatype Transform = Transform(ticks: nat, width: nat, height: nat)

  /** Work recorded on, or done with, a command buffer. */
  datatype Command =
    | CommandBufferAcquired
    | SwapchainTextureAcquired(swapchainTexture: Handle)
    | CopyPassBegun
    | BufferUploaded(source: Handle, offset: nat, buffer: Handle, size: nat)
    | TextureUploaded(source: Handle, texture: Handle, w: nat, h: nat, d: nat)
    | CopyPassEnded
    | RenderPassBegun(color: ColorTargetInfo, depthStencil: DepthStencilTargetInfo)
    | PipelineBound(pipeline: Handle)
    | VertexBuffersBound(firstSlot: nat, bindings: seq<BufferBinding>)
    | IndexBufferBound(binding: BufferBinding, elementSize: IndexElementSize)
    | FragmentSamplersBound(firstSlot: nat, samplers: seq<TextureSamplerBinding>)
    | VertexUniformPushed(slot: nat, transform: Transform, size: nat)
    | IndexedPrimitivesDrawn(numIndices: nat, numInstances: nat, firstIndex: nat, vertexOffset: int, firstInstance: nat)
    | RenderPassEnded
    | Submitted

  datatype Call =
    | Created(handle: Handle, resource: Resource)
    | Released(handle: Handle)
    | Mapped(handle: Handle)
    | Unmapped(handle: Handle)
    | Recorded(command: Command)
    | SurfaceLoaded(surface: Handle, path: string)
    | SurfaceConverted(from: Handle, to: Handle)
    | SurfaceDestroyed(surface: Handle)

  function Zeros(n: nat): (b: seq<Byte>)
    ensures |b| == n
  {
    seq(n, _ => 0)
  }

  /** The GPU device together with the surface allocator. */
  class Device {
    var live: map<Handle, Resource>
    var surfaces: map<Handle, Surface>
    var next: Handle
    var log: seq<Call>

    /** SDL_GetGPUShaderFormats */
    const shaderFormats: bv32
    /** The formats SDL_GPUTextureSupportsFormat accepts for 2D depth-stencil targets. */
    const depthStencilFormats: set<TextureFormat>
    /** SDL_GetGPUSwapchainTextureFormat */
    const swapchainFormat: TextureFormat

    /** Every owned handle was handed out before, and no handle is both a GPU
        object and a surface. */
    ghost predicate Valid()
      reads this
    {
      && 0 < next
      && (forall h :: h in live ==> 0 < h < next)
      && (forall s :: s in surfaces ==> 0 < s < next && surfaces[s].WellFormed())
      && live.Keys !! surfaces.Keys
    }

    constructor (shaderFormats: bv32, depthStencilFormats: set<TextureFormat>, swapchainFormat: TextureFormat)
      ensures Valid()
      ensures live == map[] && surfaces == map[] && log == []
      ensures this.shaderFormats == shaderFormats && this.depthStencilFormats == depthStencilFormats
      ensures this.swapchainFormat == swapchainFormat
    {
      live, surfaces, next, log := map[], map[], 1, [];
      this.shaderFormats := shaderFormats;
      this.depthStencilFormats := depthStencilFormats;
      this.swapchainFormat := swapchainFormat;
    }

    /** SDL_CreateGPUShader, _GraphicsPipeline, _Texture, _Buffer,
        _TransferBuffer, _Sampler: a fresh handle, or null when the device
        refuses. */
    method Create(r: Resource, granted: bool) returns (h: Handle)
      requires Valid()
      modifies this
      ensures Valid() && surfaces == old(surfaces)
      ensures granted ==> h == old(next) && h !in old(live) && next == h + 1
      ensures granted ==> live == old(live)[h := r] && log == old(log) + [Created(h, r)]
      ensures !granted ==> h == Null && unchanged(this)
    {
      if granted {
        h := next;
        live := live[h := r];
        next := next + 1;
        log := log + [Created(h, r)];
      } else {
        h := Null;
      }
    }

    /** SDL_ReleaseGPUShader, _Texture, _TransferBuffer: the handle must be owned,
        so a second release of the same handle cannot verify. */
    method Release(h: Handle)
      requires Valid() && h in live
      modifies this
      ensures Valid() && surfaces == old(surfaces) && next == old(next)
      ensures live == old(live) - {h} && log == old(log) + [Released(h)]
    {
      live := live - {h};
      log := log + [Released(h)];
    }

    /** SDL_MapGPUTransferBuffer(..., cycle = false): the transfer buffer's
        memory, with its current contents, or null on failure. */
    method Map(h: Handle, granted: bool) returns (mem: array?<Byte>)
      requires Valid() && h in live && live[h].TransferBuffer?
      modifies this
      ensures Valid() && live == old(live) && surfaces == old(surfaces) && next == old(next)
      ensures granted ==> mem != null && fresh(mem) && mem[..] == live[h].bytes && log == old(log) + [Mapped(h)]
      ensures !granted ==> mem == null && unchanged(this)
    {
      if granted {
        var bytes := live[h].bytes;
        mem := new Byte[|bytes|](i requires 0 <= i < |bytes| => bytes[i]);
        log := log + [Mapped(h)];
      } else {
        mem := null;
      }
    }

    /** SDL_UnmapGPUTransferBuffer: what was written through the mapping is now
        the transfer buffer's contents. */
    method Unmap(h: Handle, mem: array<Byte>)
      requires Valid() && h in live && live[h].TransferBuffer? && mem.Length == |live[h].bytes|
      modifies this
      ensures Valid() && surfaces == old(surfaces) && next == old(next)
      ensures live == old(live)[h := TransferBuffer(mem[..])] && log == old(log) + [Unmapped(h)]
    {
      live := live[h := TransferBuffer(mem[..])];
      log := log + [Unmapped(h)];
    }

    /** A command that changes no object the model tracks. */
    method Record(c: Command)
      requires Valid() && !c.BufferUploaded? && !c.TextureUploaded?
      modifies this
      ensures Valid() && live == old(live) && surfaces == old(surfaces) && next == old(next)
      ensures log == old(log) + [Recorded(c)]
    {
      log := log + [Recorded(c)];
    }

    /** SDL_UploadToGPUBuffer from `offset` of a transfer buffer into the start
        of a buffer. The copy is taken to happen when it is recorded. */
    method UploadToBuffer(source: Handle, offset: nat, buffer: Handle, size: nat)
      requires Valid() && source in live && live[source].TransferBuffer?
      requires offset + size <= |live[source].bytes|
      requires buffer in live && live[buffer].Buffer? && size <= |live[buffer].contents|
      modifies this
      ensures Valid() && surfaces == old(surfaces) && next == old(next)
      ensures live == old(live)[buffer := Buffer(old(live[buffer].usage),
                                                 old(live[source].bytes[offset..offset + size])
                                                 + old(live[buffer].contents[size..]))]
      ensures log == old(log) + [Recorded(BufferUploaded(source, offset, buffer, size))]
    {
      var dst := live[buffer];
      live := live[buffer := Buffer(dst.usage, live[source].bytes[offset..offset + size] + dst.contents[size..])];
      log := log + [Recorded(BufferUploaded(source, offset, buffer, size))];
    }

    /** SDL_UploadToGPUTexture from the start of a transfer buffer into a
        w x h x d region of a texture: the texture's pixels become the transfer
        buffer's bytes. The copy is taken to happen when it is recorded. */
    method UploadToTexture(source: Handle, texture: Handle, w: U32, h: U32, d: U32)
      requires Valid() && source in live && live[source].TransferBuffer?
      requires texture in live && live[texture].Texture?
      modifies this
      ensures Valid() && surfaces == old(surfaces) && next == old(next)
      ensures live == old(live)[texture := Texture(old(live[texture].texture), old(live[source].bytes))]
      ensures log == old(log) + [Recorded(TextureUploaded(source, texture, w, h, d))]
    {
      live := live[texture := Texture(live[texture].texture, live[source].bytes)];
      log := log + [Recorded(TextureUploaded(source, texture, w, h, d))];
    }

    /** IMG_Load: the decoded surface, or null when decoding fails. */
    method LoadSurface(path: string, decoded: Option<Surface>) returns (s: Handle)
      requires Valid() && (decoded.Some? ==> decoded.value.WellFormed())
      modifies this
      ensures Valid() && live == old(live)
      ensures decoded.Some? ==> s == old(next) && s !in old(surfaces) && next == s + 1
      ensures decoded.Some? ==> surfaces == old(surfaces)[s := decoded.value] && log == old(log) + [SurfaceLoaded(s, path)]
      ensures decoded.None? ==> s == Null && unchanged(this)
    {
      if decoded.Some? {
        s := next;
        surfaces := surfaces[s := decoded.value];
        next := next + 1;
        log := log + [SurfaceLoaded(s, path)];
      } else {
        s := Null;
      }
    }

    /** SDL_ConvertSurface: a new surface in `format` (the pixel conversion is the
        library's), or null on failure. The source surface is left alone. */
    method ConvertSurface(s: Handle, format: PixelFormat, converted: Option<Surface>) returns (t: Handle)
      requires Valid() && s in surfaces
      requires converted.Some? ==> converted.value.WellFormed() && converted.value.format == format
      modifies this
      ensures Valid() && live == old(live)
      ensures converted.Some? ==> t == old(next) && t !in old(surfaces) && next == t + 1
      ensures converted.Some? ==> surfaces == old(surfaces)[t := converted.value] && log == old(log) + [SurfaceConverted(s, t)]
      ensures converted.None? ==> t == Null && unchanged(this)
    {
      if converted.Some? {
        t := next;
        surfaces := surfaces[t := converted.value];
        next := next + 1;
        log := log + [SurfaceConverted(s, t)];
      } else {
        t := Null;
      }
    }

    /** SDL_DestroySurface: the surface must be owned, so a second destruction
        of the same surface cannot verify. */
    method DestroySurface(s: Handle)
      requires Valid() && s in surfaces
      modifies this
      ensures Valid() && live == old(live) && next == old(next)
      ensures surfaces == old(surfaces) - {s} && log == old(log) + [SurfaceDestroyed(s)]
    {
      surfaces := surfaces - {s};
      log := log + [SurfaceDestroyed(s)];
    }
  }
}
