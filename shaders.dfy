/** Shader-variant resolution (LoadShader in src/main.cpp): from a shader's
    file name and the device's shader-format bitmask, decide the stage, the
    binary format, the file to read and the entry point. Reading the file is a
    lookup in a map standing for the file system; creating the shader object
    is the device's business (see App.LoadShader). */
module Shaders {
  import opened Wrappers
  import opened Layout

  /** SDL_GPUShaderFormat bits (SDL_GPU_SHADERFORMAT_SPIRV, _DXIL, _MSL). */
  const FormatSpirv: bv32 := 0x02
  const FormatDxil: bv32 := 0x08
  const FormatMsl: bv32 := 0x10

  datatype Stage = VertexStage | FragmentStage

  /** The compiled-shader formats the renderer ships, in the order it prefers them. */
  datatype Backend = Spirv | Msl | Dxil {
    function Flag(): bv32 {
      match this
      case Spirv => FormatSpirv
      case Msl => FormatMsl
      case Dxil => FormatDxil
    }

    function Directory(): string {
      match this
      case Spirv => "Content/Shaders/Compiled/SPIRV"
      case Msl => "Content/Shaders/Compiled/MSL"
      case Dxil => "Content/Shaders/Compiled/DXIL"
    }

    function Extension(): string {
      match this
      case Spirv => ".spv"
      case Msl => ".msl"
      case Dxil => ".dxil"
    }

    function Entrypoint(): string {
      if this == Msl then "main0" else "main"
    }
  }

  /** SDL_GPUShaderCreateInfo as LoadShader fills it; code_size is |code|. */
  datatype ShaderCreateInfo = ShaderCreateInfo(
    code: seq<Byte>,
    entrypoint: string,
    format: bv32,
    stage: Stage,
    numSamplers: U32,
    numStorageTextures: U32,
    numStorageBuffers: U32,
    numUniformBuffers: U32)

  /** std::string::contains */
  function Contains(s: string, part: string): bool
    decreases |s|
  {
    |part| <= |s| && (s[..|part|] == part || Contains(s[1..], part))
  }

  predicate OccursAt(s: string, part: string, i: nat) {
    i + |part| <= |s| && s[i..i + |part|] == part
  }

  /** `Contains` is substring search: `part` occurs at some position of `s`. */
  lemma {:induction false} ContainsOccurs(s: string, part: string)
    ensures Contains(s, part) <==> exists i: nat :: OccursAt(s, part, i)
    decreases |s|
  {
    if |part| <= |s| {
      if s[..|part|] == part {
        assert OccursAt(s, part, 0);
      } else {
        ContainsOccurs(s[1..], part);
        if Contains(s[1..], part) {
          var i: nat :| OccursAt(s[1..], part, i);
          assert s[i + 1..i + 1 + |part|] == s[1..][i..i + |part|];
          assert OccursAt(s, part, i + 1);
        }
        if i: nat :| OccursAt(s, part, i) {
          assert i != 0;
          assert s[1..][i - 1..i - 1 + |part|] == s[i..i + |part|];
          assert OccursAt(s[1..], part, i - 1);
        }
      }
    } else {
      if i: nat :| OccursAt(s, part, i) {
        assert false;
      }
    }
  }

  predicate Supports(formats: bv32, b: Backend) {
    match b
    case Spirv => formats & FormatSpirv != 0
    case Msl => formats & FormatMsl != 0
    case Dxil => formats & FormatDxil != 0
  }

  /** The first supported format in the order SPIRV, MSL, DXIL. */
  function ChooseBackend(formats: bv32): (r: Result<Backend>)
    ensures r.Ok? ==> Supports(formats, r.value)
    ensures r.Ok? ==> r.value == Spirv || !Supports(formats, Spirv)
    ensures r.Ok? ==> r.value == Dxil ==> !Supports(formats, Msl)
    ensures r.Err? <==> !Supports(formats, Spirv) && !Supports(formats, Msl) && !Supports(formats, Dxil)
    ensures r.Err? ==> r.error == "No supported shader formats available"
  {
    if Supports(formats, Spirv) then Ok(Spirv)
    else if Supports(formats, Msl) then Ok(Msl)
    else if Supports(formats, Dxil) then Ok(Dxil)
    else Err("No supported shader formats available")
  }

  /** std::filesystem::path operator/ on a POSIX system: an absolute right
      operand replaces the left one; otherwise a separator is inserted unless
      the left operand is empty or already ends in one. */
  function JoinPath(p: string, q: string): string {
    if |q| > 0 && q[0] == '/' then q
    else if |p| > 0 && p[|p| - 1] != '/' then p + "/" + q
    else p + q
  }

  /** BasePath / "Content/Shaders/Compiled/<FMT>" / (name + ext) */
  function ShaderPath(basePath: string, b: Backend, name: string): string {
    JoinPath(JoinPath(basePath, b.Directory()), name + b.Extension())
  }

  /** The stage LoadShader reads off the file name (src/main.cpp:32-38):
      ".vert" is looked for first, so a name holding both is a vertex shader. */
  function ShaderStage(name: string): (r: Result<Stage>)
    ensures r.Err? <==> !Contains(name, ".vert") && !Contains(name, ".frag")
    ensures r.Err? ==> r.error == "Unrecognized shader stage!"
    ensures r.Ok? ==> (r.value == VertexStage <==> Contains(name, ".vert"))
  {
    if Contains(name, ".vert") then Ok(VertexStage)
    else if Contains(name, ".frag") then Ok(FragmentStage)
    else Err("Unrecognized shader stage!")
  }

  /** LoadShader up to the creation of the shader object (src/main.cpp:32-72). */
  function ResolveShader(
    name: string, samplerCount: U32, uniformBufferCount: U32, storageBufferCount: U32,
    storageTextureCount: U32, formats: bv32, basePath: string, files: map<string, seq<Byte>>
  ): (r: Result<ShaderCreateInfo>)
    // The stage is decided first, from the name alone.
    ensures ShaderStage(name).Err? ==> r == Err("Unrecognized shader stage!")
    ensures r.Ok? ==> ShaderStage(name).Ok? && r.value.stage == ShaderStage(name).value
    // Then the format: the most preferred one the device supports.
    ensures ShaderStage(name).Ok? && ChooseBackend(formats).Err? ==> r == Err("No supported shader formats available")
    ensures r.Ok? ==> ChooseBackend(formats).Ok? && r.value.format == ChooseBackend(formats).value.Flag()
    // Then the file, whose bytes become the code; a missing file is an error.
    ensures ShaderStage(name).Ok? && ChooseBackend(formats).Ok? ==>
              (r.Err? <==> ShaderPath(basePath, ChooseBackend(formats).value, name) !in files)
    ensures r.Ok? ==> var path := ShaderPath(basePath, ChooseBackend(formats).value, name);
                      path in files && r.value.code == files[path]
    ensures r.Ok? ==> r.value.entrypoint == (if r.value.format == FormatMsl then "main0" else "main")
    ensures r.Ok? ==> r.value.numSamplers == samplerCount && r.value.numUniformBuffers == uniformBufferCount
                      && r.value.numStorageBuffers == storageBufferCount
                      && r.value.numStorageTextures == storageTextureCount
  {
    match ShaderStage(name)
    case Err(e) => Err(e)
    case Ok(stage) =>
      match ChooseBackend(formats)
      case Err(e) => Err(e)
      case Ok(b) =>
        var path := ShaderPath(basePath, b, name);
        if path !in files then Err("Couldn't open shader file")
        else Ok(ShaderCreateInfo(files[path], b.Entrypoint(), b.Flag(), stage,
                                 samplerCount, storageTextureCount, storageBufferCount, uniformBufferCount))
  }

  /** With a base path that ends in a separator (as SDL_GetBasePath returns it)
      and a relative name, the shader file is
      <base>Content/Shaders/Compiled/<FMT>/<name><ext>. */
  lemma ShaderPathLayout(basePath: string, b: Backend, name: string)
    requires |basePath| > 0 && basePath[|basePath| - 1] == '/'
    requires |name| > 0 && name[0] != '/'
    ensures ShaderPath(basePath, b, name) == basePath + b.Directory() + "/" + name + b.Extension()
  {
    var dir := JoinPath(basePath, b.Directory());
    assert dir == basePath + b.Directory();
    assert dir[|dir| - 1] != '/';
  }

  /** "Foo.vert" on a device that offers only MSL: the vertex stage, the MSL
      binary Foo.vert.msl, and the entry point "main0". */
  lemma MetalOnlyVertexShader(basePath: string, code: seq<Byte>)
    requires |basePath| > 0 && basePath[|basePath| - 1] == '/'
    ensures var path := basePath + "Content/Shaders/Compiled/MSL/Foo.vert.msl";
            var r := ResolveShader("Foo.vert", 0, 1, 0, 0, FormatMsl, basePath, map[path := code]);
            r.Ok? && r.value.stage == VertexStage && r.value.format == FormatMsl &&
            r.value.entrypoint == "main0" && r.value.code == code
  {
    var path := basePath + "Content/Shaders/Compiled/MSL/Foo.vert.msl";
    assert "Foo.vert"[3..3 + 5] == ".vert";
    ContainsOccurs("Foo.vert", ".vert");
    assert FormatMsl & FormatSpirv == 0;
    ShaderPathLayout(basePath, Msl, "Foo.vert");
    assert ShaderPath(basePath, Msl, "Foo.vert") == path;
  }
}
