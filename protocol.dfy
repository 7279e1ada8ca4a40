/** The call sequences the renderer issues, as values: the initial upload
    (src/main.cpp:271-378), the attachment swap on resize (src/main.cpp:385-405)
    and one frame (src/main.cpp:407-471); together with the rules SDL's GPU API
    sets for a command buffer and the bookkeeping of which handles are owned.
    The App module's methods are proved to issue exactly these sequences; the
    lemmas here say what the sequences guarantee. */
module Protocol {
  import opened Wrappers
  import opened Layout
  import opened Sdl

  /** static_cast<Uint32> of an integer: reduction modulo 2^32. */
  function ToU32(x: int): (r: U32)
    ensures 0 <= x < U32Limit ==> r == x
    ensures (r - x) % U32Limit == 0
  {
    x % U32Limit
  }

  // ---------------------------------------------------------------------------
  // The command-buffer protocol

  /** Where a command buffer is in its life. */
  datatype Phase = Recording | InCopyPass | InRenderPass | Closed

  /** The phase after one command, or None when SDL does not allow the command
      in that phase: uploads only inside a copy pass, binds and draws only
      inside a render pass, passes opened only outside one another, uniform
      data pushed outside a copy pass, submission only outside any pass, and
      nothing after submission. */
  function Step(p: Phase, c: Command): Option<Phase> {
    match c
    case CommandBufferAcquired => None
    case SwapchainTextureAcquired(_) => if p == Recording then Some(Recording) else None
    case CopyPassBegun => if p == Recording then Some(InCopyPass) else None
    case BufferUploaded(_, _, _, _) => if p == InCopyPass then Some(InCopyPass) else None
    case TextureUploaded(_, _, _, _, _) => if p == InCopyPass then Some(InCopyPass) else None
    case CopyPassEnded => if p == InCopyPass then Some(Recording) else None
    case RenderPassBegun(_, _) => if p == Recording then Some(InRenderPass) else None
    case PipelineBound(_) => if p == InRenderPass then Some(InRenderPass) else None
    case VertexBuffersBound(_, _) => if p == InRenderPass then Some(InRenderPass) else None
    case IndexBufferBound(_, _) => if p == InRenderPass then Some(InRenderPass) else None
    case FragmentSamplersBound(_, _) => if p == InRenderPass then Some(InRenderPass) else None
    case VertexUniformPushed(_, _, _) => if p == Recording || p == InRenderPass then Some(p) else None
    case IndexedPrimitivesDrawn(_, _, _, _, _) => if p == InRenderPass then Some(InRenderPass) else None
    case RenderPassEnded => if p == InRenderPass then Some(Recording) else None
    case Submitted => if p == Recording then Some(Closed) else None
  }

  function Run(p: Phase, cs: seq<Command>): Option<Phase>
    decreases |cs|
  {
    if cs == [] then Some(p)
    else match Step(p, cs[0])
      case None => None
      case Some(q) => Run(q, cs[1..])
  }

  /** A command buffer used as SDL requires: acquired first, every pass ended
      before the next begins, each command inside the pass it belongs to,
      and submitted last with no pass open. */
  predicate FollowsProtocol(cs: seq<Command>) {
    |cs| > 0 && cs[0] == CommandBufferAcquired && Run(Recording, cs[1..]) == Some(Closed)
  }

  lemma {:induction false} RunConcat(p: Phase, a: seq<Command>, b: seq<Command>)
    ensures Run(p, a + b) == match Run(p, a) case None => None case Some(q) => Run(q, b)
    decreases |a|
  {
    if a == [] {
      assert a + b == b;
    } else {
      assert (a + b)[0] == a[0] && (a + b)[1..] == a[1..] + b;
      match Step(p, a[0])
      case None =>
      case Some(q) => RunConcat(q, a[1..], b);
    }
  }

  /** The commands among a sequence of calls, in order. */
  function CommandsOf(calls: seq<Call>): (cs: seq<Command>)
    ensures |cs| <= |calls|
  {
    if calls == [] then []
    else CommandsOf(calls[..|calls| - 1])
         + (if calls[|calls| - 1].Recorded? then [calls[|calls| - 1].command] else [])
  }

  lemma {:induction false} CommandsOfConcat(a: seq<Call>, b: seq<Call>)
    ensures CommandsOf(a + b) == CommandsOf(a) + CommandsOf(b)
    decreases |b|
  {
    if b == [] {
      assert a + b == a;
    } else {
      var n := |b| - 1;
      assert (a + b)[..|a + b| - 1] == a + b[..n];
      CommandsOfConcat(a, b[..n]);
    }
  }

  /** The calls that record the commands `cs`. */
  function Recordings(cs: seq<Command>): (calls: seq<Call>)
    ensures |calls| == |cs|
    ensures forall i :: 0 <= i < |cs| ==> calls[i] == Recorded(cs[i])
  {
    if cs == [] then [] else Recordings(cs[..|cs| - 1]) + [Recorded(cs[|cs| - 1])]
  }

  /** Recording two runs of commands one after the other. */
  lemma RecordingsConcat(a: seq<Command>, b: seq<Command>)
    ensures Recordings(a + b) == Recordings(a) + Recordings(b)
  {
    assert forall i :: 0 <= i < |a| + |b| ==> (a + b)[i] == if i < |a| then a[i] else b[i - |a|];
  }

  lemma {:induction false} CommandsOfRecordings(cs: seq<Command>)
    ensures CommandsOf(Recordings(cs)) == cs
    decreases |cs|
  {
    if cs != [] {
      var n := |cs| - 1;
      assert Recordings(cs)[..n] == Recordings(cs[..n]);
      CommandsOfRecordings(cs[..n]);
      assert cs[..n] + [cs[n]] == cs;
    }
  }

  // ---------------------------------------------------------------------------
  // Ownership bookkeeping

  /** The owned handles after `calls`, starting from `keys`. */
  function Replay(keys: set<Handle>, calls: seq<Call>): set<Handle> {
    if calls == [] then keys
    else
      var owned := Replay(keys, calls[..|calls| - 1]);
      var c := calls[|calls| - 1];
      if c.Created? then owned + {c.handle}
      else if c.Released? then owned - {c.handle}
      else owned
  }

  /** `x` occurs in `xs` at position `i` and nowhere else. */
  predicate OnlyAt<T(==)>(xs: seq<T>, x: T, i: int) {
    0 <= i < |xs| && xs[i] == x && forall j :: 0 <= j < |xs| && j != i ==> xs[j] != x
  }

  /** `x` occurs exactly once in `xs`. */
  predicate Once<T(==)>(xs: seq<T>, x: T) {
    exists i :: 0 <= i < |xs| && OnlyAt(xs, x, i)
  }

  /** Some occurrence of `a` comes before some occurrence of `b`. */
  predicate Before<T(==)>(xs: seq<T>, a: T, b: T) {
    exists i, j :: 0 <= i < j < |xs| && xs[i] == a && xs[j] == b
  }

  /** Calls that record nothing contribute no commands. */
  lemma {:induction false} CommandsOfNone(calls: seq<Call>)
    requires forall i :: 0 <= i < |calls| ==> !calls[i].Recorded?
    ensures CommandsOf(calls) == []
    decreases |calls|
  {
    if calls != [] {
      CommandsOfNone(calls[..|calls| - 1]);
    }
  }

  // ---------------------------------------------------------------------------
  // One frame (SDL_AppIterate)

  /** The handles a frame binds. */
  datatype Bindings = Bindings(
    pipeline: Handle,
    texture: Handle,
    msaaTexture: Handle,
    depthStencilTexture: Handle,
    vertexBuffer: Handle,
    indexBuffer: Handle,
    sampler: Handle)

  /** SDL_FColor{0.1f, 0.1f, 0.1f, 1.0f} */
  const ClearColor: FColor := FColor(TenthF32, TenthF32, TenthF32, OneF32)

  /** sizeof(glm::mat4) */
  const MatrixSize: nat := 64

  /** The render pass: the MSAA texture cleared and resolved into the swapchain
      texture, the depth texture cleared to 1.0, the pipeline and buffers bound,
      the matrix pushed, every index drawn once. */
  function RenderPassCommands(b: Bindings, swapchainTexture: Handle, t: Transform, indexCount: U32): seq<Command> {
    [ RenderPassBegun(ColorTargetInfo(b.msaaTexture, ClearColor, Clear, Resolve, swapchainTexture),
                      DepthStencilTargetInfo(b.depthStencilTexture, OneF32, Clear)),
      PipelineBound(b.pipeline),
      VertexBuffersBound(0, [BufferBinding(b.vertexBuffer, 0)]),
      IndexBufferBound(BufferBinding(b.indexBuffer, 0), Index32),
      FragmentSamplersBound(0, [TextureSamplerBinding(b.texture, b.sampler)]),
      VertexUniformPushed(0, t, MatrixSize),
      IndexedPrimitivesDrawn(indexCount, 1, 0, 0, 0),
      RenderPassEnded ]
  }

  /** A whole frame: acquire the command buffer and the swapchain texture, the
      render pass when there is a texture to draw into, submit. */
  function FrameCommands(b: Bindings, swapchainTexture: Handle, t: Transform, indexCount: U32): seq<Command> {
    [CommandBufferAcquired, SwapchainTextureAcquired(swapchainTexture)]
    + (if swapchainTexture == Null then [] else RenderPassCommands(b, swapchainTexture, t, indexCount))
    + [Submitted]
  }

  /** The render pass starts and ends outside any pass. */
  lemma RenderPassBalanced(b: Bindings, swapchainTexture: Handle, t: Transform, indexCount: U32)
    ensures Run(Recording, RenderPassCommands(b, swapchainTexture, t, indexCount)) == Some(Recording)
  {
    var cs := RenderPassCommands(b, swapchainTexture, t, indexCount);
    assert Run(InRenderPass, cs[7..]) == Some(Recording);
    assert Run(InRenderPass, cs[6..]) == Some(Recording);
    assert Run(InRenderPass, cs[5..]) == Some(Recording);
    assert Run(InRenderPass, cs[4..]) == Some(Recording);
    assert Run(InRenderPass, cs[3..]) == Some(Recording);
    assert Run(InRenderPass, cs[2..]) == Some(Recording);
    assert Run(InRenderPass, cs[1..]) == Some(Recording);
    assert cs[0..] == cs;
  }

  /** Every frame uses its command buffer as SDL requires, whether or not it
      draws. */
  lemma FrameFollowsProtocol(b: Bindings, swapchainTexture: Handle, t: Transform, indexCount: U32)
    ensures FollowsProtocol(FrameCommands(b, swapchainTexture, t, indexCount))
  {
    var cs := FrameCommands(b, swapchainTexture, t, indexCount);
    var mid := if swapchainTexture == Null then [] else RenderPassCommands(b, swapchainTexture, t, indexCount);
    var acquire := [SwapchainTextureAcquired(swapchainTexture)];
    assert cs[1..] == acquire + (mid + [Submitted]);
    assert Run(Recording, acquire) == Some(Recording) by {
      assert acquire[1..] == [];
    }
    assert Run(Recording, [Submitted]) == Some(Closed) by {
      assert [Submitted][1..] == [];
    }
    RunConcat(Recording, acquire, mid + [Submitted]);
    RunConcat(Recording, mid, [Submitted]);
    if swapchainTexture != Null {
      RenderPassBalanced(b, swapchainTexture, t, indexCount);
    }
  }

  /** Without a swapchain texture (the window is minimised, say) a frame only
      acquires its command buffer and submits it: no pass begins and nothing
      is drawn. */
  lemma FrameWithoutTextureDrawsNothing(b: Bindings, t: Transform, indexCount: U32)
    ensures var frame := FrameCommands(b, Null, t, indexCount);
            && frame[0] == CommandBufferAcquired && frame[|frame| - 1] == Submitted
            && forall i :: 0 <= i < |frame| ==> !frame[i].RenderPassBegun? && !frame[i].IndexedPrimitivesDrawn?
  {
    var frame := FrameCommands(b, Null, t, indexCount);
    assert frame == [CommandBufferAcquired, SwapchainTextureAcquired(Null), Submitted];
  }

  /** With a swapchain texture a frame acquires its command buffer first and
      submits it last, and draws exactly once: every index, one instance, no
      offsets, inside a pass whose colour target is the MSAA texture resolved
      into the swapchain texture and which ends before the submission. */
  lemma FrameDrawsOnce(b: Bindings, swapchainTexture: Handle, t: Transform, indexCount: U32)
    requires swapchainTexture != Null
    ensures var frame := FrameCommands(b, swapchainTexture, t, indexCount);
            && frame[0] == CommandBufferAcquired && frame[|frame| - 1] == Submitted
            && Once(frame, IndexedPrimitivesDrawn(indexCount, 1, 0, 0, 0))
            && (forall i :: 0 <= i < |frame| && frame[i].IndexedPrimitivesDrawn? ==>
                  frame[i] == IndexedPrimitivesDrawn(indexCount, 1, 0, 0, 0))
            && (forall i :: 0 <= i < |frame| && frame[i].RenderPassBegun? ==>
                  frame[i].color.resolveTexture == swapchainTexture && frame[i].color.texture == b.msaaTexture)
            && Before(frame, RenderPassEnded, Submitted)
  {
    var head := [CommandBufferAcquired, SwapchainTextureAcquired(swapchainTexture)];
    var pass := RenderPassCommands(b, swapchainTexture, t, indexCount);
    var frame := head + pass + [Submitted];
    assert frame == FrameCommands(b, swapchainTexture, t, indexCount);
    assert |frame| == 11;
    assert forall i :: 2 <= i < 10 ==> frame[i] == pass[i - 2];
    assert OnlyAt(frame, IndexedPrimitivesDrawn(indexCount, 1, 0, 0, 0), 8);
    assert frame[9] == RenderPassEnded && frame[10] == Submitted;
  }

  /** The calls recording a frame: the two acquisitions, the render pass when
      there is one, the submission. */
  lemma FrameRecorded(b: Bindings, swapchainTexture: Handle, t: Transform, indexCount: U32)
    ensures var calls := Recordings(FrameCommands(b, swapchainTexture, t, indexCount));
            var unsubmitted := [Recorded(CommandBufferAcquired), Recorded(SwapchainTextureAcquired(swapchainTexture))]
              + (if swapchainTexture == Null then [] else Recordings(RenderPassCommands(b, swapchainTexture, t, indexCount)));
            && calls == unsubmitted + [Recorded(Submitted)]
            && calls[..|calls| - 1] == unsubmitted
  {
    var head := [CommandBufferAcquired, SwapchainTextureAcquired(swapchainTexture)];
    var mid := if swapchainTexture == Null then [] else RenderPassCommands(b, swapchainTexture, t, indexCount);
    RecordingsConcat(head + mid, [Submitted]);
    RecordingsConcat(head, mid);
  }

  // ---------------------------------------------------------------------------
  // The pipeline set-up (src/main.cpp:175-236)

  /** Both shaders created, then the pipeline built from them and the two
      render targets, then both shaders released. Handles are handed out from
      `first` on. */
  function PipelineCalls(first: Handle, vertex: Shaders.ShaderCreateInfo, fragment: Shaders.ShaderCreateInfo,
                         pipeline: PipelineInfo, msaa: TextureInfo, depth: TextureInfo): seq<Call> {
    [ Created(first, Shader(vertex)),
      Created(first + 1, Shader(fragment)),
      Created(first + 2, Pipeline(pipeline)),
      Created(first + 3, Texture(msaa, [])),
      Created(first + 4, Texture(depth, [])),
      Released(first),
      Released(first + 1) ]
  }

  /** A log that grew by the shader creations and then by the rest grew by
      the whole set-up. */
  lemma PipelineLogged(log0: seq<Call>, log1: seq<Call>, log2: seq<Call>, first: Handle,
                       vertex: Shaders.ShaderCreateInfo, fragment: Shaders.ShaderCreateInfo,
                       pipeline: PipelineInfo, msaa: TextureInfo, depth: TextureInfo)
    requires log1 == log0 + [Created(first, Shader(vertex)), Created(first + 1, Shader(fragment))]
    requires log2 == log1 + [Created(first + 2, Pipeline(pipeline)), Created(first + 3, Texture(msaa, [])),
                             Created(first + 4, Texture(depth, [])), Released(first), Released(first + 1)]
    ensures log2 == log0 + PipelineCalls(first, vertex, fragment, pipeline, msaa, depth)
  {
  }

  /** The shaders are released only once the pipeline that uses them exists,
      and they do not leak: afterwards the device owns what it owned before
      plus the pipeline and the two render targets. */
  lemma PipelineSetUpOwns(keys: set<Handle>, first: Handle, vertex: Shaders.ShaderCreateInfo,
                          fragment: Shaders.ShaderCreateInfo, pipeline: PipelineInfo, msaa: TextureInfo,
                          depth: TextureInfo)
    requires forall h :: h in keys ==> h < first
    ensures var calls := PipelineCalls(first, vertex, fragment, pipeline, msaa, depth);
            && Replay(keys, calls) == keys + {first + 2, first + 3, first + 4}
            && Before(calls, Created(first + 2, Pipeline(pipeline)), Released(first))
            && Before(calls, Created(first + 2, Pipeline(pipeline)), Released(first + 1))
  {
    var calls := PipelineCalls(first, vertex, fragment, pipeline, msaa, depth);
    var a, b := calls[..5], calls[5..];
    assert calls == a + b;
    ReplayConcat(keys, a, b);
    ReplayCreates(keys, a);
    assert CreatedIn(a) == {first, first + 1, first + 2, first + 3, first + 4} by {
      assert a[0].handle == first && a[1].handle == first + 1 && a[2].handle == first + 2;
      assert a[3].handle == first + 3 && a[4].handle == first + 4;
    }
    ReplayReleases(Replay(keys, a), b);
    assert ReleasedIn(b) == {first, first + 1} by {
      assert b[0].handle == first && b[1].handle == first + 1;
    }
    assert first !in keys && first + 1 !in keys;
    assert calls[2] == Created(first + 2, Pipeline(pipeline)) && calls[5] == Released(first) && calls[6] == Released(first + 1);
  }

  // ---------------------------------------------------------------------------
  // The initial upload (src/main.cpp:271-378)

  /** The staging calls: the two GPU buffers and the geometry staging buffer
      created, the staging buffer mapped and unmapped; the pixel staging buffer
      created, mapped and unmapped. Handles are handed out from `first` on. */
  function StagingCalls(first: Handle, vsize: nat, isize: nat, s: Surface): seq<Call> {
    [ Created(first, Buffer(VertexUsage, Zeros(vsize))),
      Created(first + 1, Buffer(IndexUsage, Zeros(isize))),
      Created(first + 2, TransferBuffer(Zeros(vsize + isize))),
      Mapped(first + 2),
      Unmapped(first + 2),
      Created(first + 3, TransferBuffer(Zeros(s.pitch * s.h))),
      Mapped(first + 3),
      Unmapped(first + 3) ]
  }

  /** The upload's command buffer: one copy pass with the vertex upload (the
      staging buffer from byte 0), the index upload (from byte `vsize`) and the
      texture upload (the whole w x h x 1 image), then submission. */
  function UploadCommands(first: Handle, vsize: nat, isize: nat, s: Surface, texture: Handle): seq<Command> {
    [ CommandBufferAcquired,
      CopyPassBegun,
      BufferUploaded(first + 2, 0, first, vsize),
      BufferUploaded(first + 2, vsize, first + 1, isize),
      TextureUploaded(first + 3, texture, ToU32(s.w), ToU32(s.h), 1),
      CopyPassEnded,
      Submitted ]
  }

  /** After submission: both staging buffers released, then the surface destroyed. */
  function CleanupCalls(first: Handle, image: Handle): seq<Call> {
    [Released(first + 2), Released(first + 3), SurfaceDestroyed(image)]
  }

  function UploadCalls(first: Handle, vsize: nat, isize: nat, image: Handle, s: Surface, texture: Handle): seq<Call> {
    StagingCalls(first, vsize, isize, s) + Recordings(UploadCommands(first, vsize, isize, s, texture))
    + CleanupCalls(first, image)
  }

  /** A log extended twice in a row is extended by the two runs together. */
  lemma AppendTwo(log: seq<Call>, a: seq<Call>, b: seq<Call>)
    ensures log + a + b == log + (a + b)
  {
  }

  /** A log extended three times in a row is extended by the three runs together. */
  lemma AppendThree(log: seq<Call>, a: seq<Call>, b: seq<Call>, c: seq<Call>)
    ensures log + a + b + c == log + (a + b + c)
  {
  }

  /** The calls recording the upload's command buffer, one by one. */
  lemma UploadRecorded(first: Handle, vsize: nat, isize: nat, s: Surface, texture: Handle)
    ensures Recordings(UploadCommands(first, vsize, isize, s, texture))
            == [ Recorded(CommandBufferAcquired), Recorded(CopyPassBegun),
                 Recorded(BufferUploaded(first + 2, 0, first, vsize)),
                 Recorded(BufferUploaded(first + 2, vsize, first + 1, isize)),
                 Recorded(TextureUploaded(first + 3, texture, ToU32(s.w), ToU32(s.h), 1)),
                 Recorded(CopyPassEnded), Recorded(Submitted) ]
  {
  }

  /** The commands among the upload's calls are exactly its command buffer's. */
  lemma UploadCommandsRecorded(first: Handle, vsize: nat, isize: nat, image: Handle, s: Surface, texture: Handle)
    ensures CommandsOf(UploadCalls(first, vsize, isize, image, s, texture)) == UploadCommands(first, vsize, isize, s, texture)
  {
    var a := StagingCalls(first, vsize, isize, s);
    var cs := UploadCommands(first, vsize, isize, s, texture);
    var c := CleanupCalls(first, image);
    CommandsOfNone(a);
    CommandsOfNone(c);
    CommandsOfRecordings(cs);
    CommandsOfConcat(a, Recordings(cs));
    CommandsOfConcat(a + Recordings(cs), c);
  }

  /** The upload's command buffer is used as SDL requires. */
  lemma UploadFollowsProtocol(first: Handle, vsize: nat, isize: nat, s: Surface, texture: Handle)
    ensures FollowsProtocol(UploadCommands(first, vsize, isize, s, texture))
  {
    var cs := UploadCommands(first, vsize, isize, s, texture);
    assert Run(Recording, cs[6..]) == Some(Closed);
    assert Run(InCopyPass, cs[5..]) == Some(Closed);
    assert Run(InCopyPass, cs[4..]) == Some(Closed);
    assert Run(InCopyPass, cs[3..]) == Some(Closed);
    assert Run(InCopyPass, cs[2..]) == Some(Closed);
    assert Run(Recording, cs[1..]) == Some(Closed);
  }

  /** Both staging buffers are released exactly once, and the image surface
      is destroyed exactly once. */
  lemma UploadReleasesOnce(first: Handle, vsize: nat, isize: nat, image: Handle, s: Surface, texture: Handle)
    ensures var calls := UploadCalls(first, vsize, isize, image, s, texture);
            && Once(calls, Released(first + 2)) && Once(calls, Released(first + 3))
            && Once(calls, SurfaceDestroyed(image))
  {
    var a := StagingCalls(first, vsize, isize, s);
    var r := Recordings(UploadCommands(first, vsize, isize, s, texture));
    var c := CleanupCalls(first, image);
    var calls := a + r + c;
    assert |calls| == 18;
    assert forall i :: 8 <= i < 15 ==> calls[i] == r[i - 8] && calls[i].Recorded?;
    assert forall i :: 0 <= i < 8 ==> calls[i] == a[i];
    assert OnlyAt(calls, Released(first + 2), 15);
    assert OnlyAt(calls, Released(first + 3), 16);
    assert OnlyAt(calls, SurfaceDestroyed(image), 17);
  }

  /** The staging buffers are released only after the submission, and the
      image surface is destroyed last. */
  lemma UploadReleasesAfterSubmit(first: Handle, vsize: nat, isize: nat, image: Handle, s: Surface, texture: Handle)
    ensures var calls := UploadCalls(first, vsize, isize, image, s, texture);
            && Before(calls, Recorded(Submitted), Released(first + 2))
            && Before(calls, Recorded(Submitted), Released(first + 3))
            && calls[|calls| - 1] == SurfaceDestroyed(image)
  {
    var a := StagingCalls(first, vsize, isize, s);
    var r := Recordings(UploadCommands(first, vsize, isize, s, texture));
    var c := CleanupCalls(first, image);
    var calls := a + r + c;
    assert |calls| == 18;
    assert calls[14] == r[6] == Recorded(Submitted);
    assert calls[15] == Released(first + 2) && calls[16] == Released(first + 3);
  }

  /** Of the handles the upload creates, only the two GPU buffers are still
      owned afterwards: the staging buffers do not leak. */
  lemma UploadOwnsOnlyBuffers(keys: set<Handle>, first: Handle, vsize: nat, isize: nat, image: Handle, s: Surface, texture: Handle)
    ensures Replay(keys, UploadCalls(first, vsize, isize, image, s, texture)) == keys + {first, first + 1} - {first + 2, first + 3}
  {
    var a := StagingCalls(first, vsize, isize, s);
    var r := Recordings(UploadCommands(first, vsize, isize, s, texture));
    var c := CleanupCalls(first, image);
    ReplayConcat(keys, a + r, c);
    ReplayConcat(keys, a, r);
    ReplayCreates(keys, a);
    assert CreatedIn(a) == {first, first + 1, first + 2, first + 3} by {
      assert a[0].handle == first && a[1].handle == first + 1 && a[2].handle == first + 2 && a[5].handle == first + 3;
    }
    ReplayNeutral(Replay(keys, a), r);
    ReplayReleases(Replay(keys, a + r), c);
    assert ReleasedIn(c) == {first + 2, first + 3} by {
      assert c[0].handle == first + 2 && c[1].handle == first + 3;
    }
  }

  lemma {:induction false} ReplayConcat(keys: set<Handle>, a: seq<Call>, b: seq<Call>)
    ensures Replay(keys, a + b) == Replay(Replay(keys, a), b)
    decreases |b|
  {
    if b == [] {
      assert a + b == a;
    } else {
      assert (a + b)[..|a + b| - 1] == a + b[..|b| - 1];
      ReplayConcat(keys, a, b[..|b| - 1]);
    }
  }

  /** The handles `calls` create. */
  function CreatedIn(calls: seq<Call>): set<Handle> {
    set i | 0 <= i < |calls| && calls[i].Created? :: calls[i].handle
  }

  /** The handles `calls` release. */
  function ReleasedIn(calls: seq<Call>): set<Handle> {
    set i | 0 <= i < |calls| && calls[i].Released? :: calls[i].handle
  }

  /** Calls that neither create nor release leave the owned set alone. */
  lemma {:induction false} ReplayNeutral(keys: set<Handle>, calls: seq<Call>)
    requires forall i :: 0 <= i < |calls| ==> !calls[i].Created? && !calls[i].Released?
    ensures Replay(keys, calls) == keys
    decreases |calls|
  {
    if calls != [] {
      ReplayNeutral(keys, calls[..|calls| - 1]);
    }
  }

  /** Calls that release nothing add exactly the handles they create. */
  lemma {:induction false} ReplayCreates(keys: set<Handle>, calls: seq<Call>)
    requires forall i :: 0 <= i < |calls| ==> !calls[i].Released?
    ensures Replay(keys, calls) == keys + CreatedIn(calls)
    decreases |calls|
  {
    if calls != [] {
      var n := |calls| - 1;
      ReplayCreates(keys, calls[..n]);
      assert CreatedIn(calls) == CreatedIn(calls[..n]) + (if calls[n].Created? then {calls[n].handle} else {}) by {
        forall h | h in CreatedIn(calls)
          ensures h in CreatedIn(calls[..n]) || (calls[n].Created? && h == calls[n].handle)
        {
          var i :| 0 <= i < |calls| && calls[i].Created? && calls[i].handle == h;
          if i < n {
            assert calls[..n][i] == calls[i];
          }
        }
        forall h | h in CreatedIn(calls[..n])
          ensures h in CreatedIn(calls)
        {
          var i :| 0 <= i < n && calls[..n][i].Created? && calls[..n][i].handle == h;
          assert calls[i] == calls[..n][i];
        }
      }
    }
  }

  /** Calls that create nothing remove exactly the handles they release. */
  lemma {:induction false} ReplayReleases(keys: set<Handle>, calls: seq<Call>)
    requires forall i :: 0 <= i < |calls| ==> !calls[i].Created?
    ensures Replay(keys, calls) == keys - ReleasedIn(calls)
    decreases |calls|
  {
    if calls != [] {
      var n := |calls| - 1;
      ReplayReleases(keys, calls[..n]);
      assert ReleasedIn(calls) == ReleasedIn(calls[..n]) + (if calls[n].Released? then {calls[n].handle} else {}) by {
        forall h | h in ReleasedIn(calls)
          ensures h in ReleasedIn(calls[..n]) || (calls[n].Released? && h == calls[n].handle)
        {
          var i :| 0 <= i < |calls| && calls[i].Released? && calls[i].handle == h;
          if i < n {
            assert calls[..n][i] == calls[i];
          }
        }
        forall h | h in ReleasedIn(calls[..n])
          ensures h in ReleasedIn(calls)
        {
          var i :| 0 <= i < n && calls[..n][i].Released? && calls[..n][i].handle == h;
          assert calls[i] == calls[..n][i];
        }
      }
    }
  }

  // ---------------------------------------------------------------------------
  // The attachment swap on resize (src/main.cpp:391-399)

  function ResizeCalls(oldMsaa: Handle, oldDepth: Handle, newMsaa: Handle, newDepth: Handle,
                       msaa: TextureInfo, depth: TextureInfo): seq<Call> {
    [ Released(oldMsaa), Created(newMsaa, Texture(msaa, [])),
      Released(oldDepth), Created(newDepth, Texture(depth, [])) ]
  }

  /** Each attachment is released before its replacement is created. */
  lemma ResizeReleasesFirst(oldMsaa: Handle, oldDepth: Handle, newMsaa: Handle, newDepth: Handle,
                            msaa: TextureInfo, depth: TextureInfo)
    ensures var calls := ResizeCalls(oldMsaa, oldDepth, newMsaa, newDepth, msaa, depth);
            && Before(calls, Released(oldMsaa), Created(newMsaa, Texture(msaa, [])))
            && Before(calls, Released(oldDepth), Created(newDepth, Texture(depth, [])))
  {
    var calls := ResizeCalls(oldMsaa, oldDepth, newMsaa, newDepth, msaa, depth);
    assert calls[0] == Released(oldMsaa) && calls[1] == Created(newMsaa, Texture(msaa, []));
    assert calls[2] == Released(oldDepth) && calls[3] == Created(newDepth, Texture(depth, []));
  }

  /** The swap neither leaks nor releases twice: the owned set loses the two
      old attachments, gains the two new ones, and keeps its size. */
  lemma ResizeSwapsAttachments(keys: set<Handle>, oldMsaa: Handle, oldDepth: Handle, newMsaa: Handle,
                               newDepth: Handle, msaa: TextureInfo, depth: TextureInfo)
    requires oldMsaa in keys && oldDepth in keys && oldMsaa != oldDepth
    requires newMsaa !in keys && newDepth !in keys && newMsaa != newDepth
    ensures var calls := ResizeCalls(oldMsaa, oldDepth, newMsaa, newDepth, msaa, depth);
            && Replay(keys, calls) == keys - {oldMsaa, oldDepth} + {newMsaa, newDepth}
            && |Replay(keys, calls)| == |keys|
  {
    ResizeReplay(keys, oldMsaa, oldDepth, newMsaa, newDepth, msaa, depth);
    SwapKeepsSize(keys, oldMsaa, oldDepth, newMsaa, newDepth);
  }

  /** The resize calls, step by step. */
  lemma ResizeReplay(keys: set<Handle>, oldMsaa: Handle, oldDepth: Handle, newMsaa: Handle,
                     newDepth: Handle, msaa: TextureInfo, depth: TextureInfo)
    ensures Replay(keys, ResizeCalls(oldMsaa, oldDepth, newMsaa, newDepth, msaa, depth))
            == keys - {oldMsaa} + {newMsaa} - {oldDepth} + {newDepth}
  {
    var c0, c1 := Released(oldMsaa), Created(newMsaa, Texture(msaa, []));
    var c2, c3 := Released(oldDepth), Created(newDepth, Texture(depth, []));
    assert ResizeCalls(oldMsaa, oldDepth, newMsaa, newDepth, msaa, depth) == [c0] + [c1] + [c2] + [c3];
    ReplayLast(keys, [], c0);
    assert [] + [c0] == [c0];
    ReplayLast(keys, [c0], c1);
    ReplayLast(keys, [c0] + [c1], c2);
    ReplayLast(keys, [c0] + [c1] + [c2], c3);
  }

  /** One more call changes the owned set by at most its own handle. */
  lemma ReplayLast(keys: set<Handle>, calls: seq<Call>, c: Call)
    ensures Replay(keys, calls + [c]) == if c.Created? then Replay(keys, calls) + {c.handle}
                                         else if c.Released? then Replay(keys, calls) - {c.handle}
                                         else Replay(keys, calls)
  {
    assert (calls + [c])[..|calls|] == calls;
  }

  lemma SwapKeepsSize(keys: set<Handle>, old1: Handle, old2: Handle, new1: Handle, new2: Handle)
    requires old1 in keys && old2 in keys && old1 != old2
    requires new1 !in keys && new2 !in keys && new1 != new2
    ensures keys - {old1} + {new1} - {old2} + {new2} == keys - {old1, old2} + {new1, new2}
    ensures |keys - {old1, old2} + {new1, new2}| == |keys|
  {
    var kept := keys - {old1, old2};
    assert keys == kept + {old1, old2} && kept !! {old1, old2};
    assert kept !! {new1, new2};
  }
}
