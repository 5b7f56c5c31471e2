/** The value types the OpenGL renderer caches and compares: rectangles,
    the blend, depth-stencil and rasterizer state records, vertex attribute
    descriptions, meshes, draw states and render-target attributes. Enum
    codes are bounded subset types, so the renderer's range assertions on
    them hold by typing. */
module GlTypes {

  /** Number of vertex attribute slots. */
  const NumVertexAttrs: nat := 16

  /** Number of texture sampler slots per target. */
  const MaxTextureSamplers: nat := 16

  const NumCompareFuncs: nat := 8
  const NumStencilOps: nat := 8
  const NumBlendFactors: nat := 15
  const NumBlendOps: nat := 3
  const NumFaceCodes: nat := 3

  type CompareFunc = n: nat | n < NumCompareFuncs
  type StencilOp = n: nat | n < NumStencilOps
  type BlendFactor = n: nat | n < NumBlendFactors
  type BlendOp = n: nat | n < NumBlendOps
  type FaceCode = n: nat | n < NumFaceCodes

  /** An unsigned 8-bit value. */
  type Byte = n: nat | n < 256

  /** Colour-channel bits of a colour write mask, and all four together. */
  const ChannelR: bv8 := 1
  const ChannelG: bv8 := 2
  const ChannelB: bv8 := 4
  const ChannelA: bv8 := 8
  const ChannelRGBA: bv8 := 15

  /** The stencil write mask a stencil clear forces. */
  const FullStencilMask: nat := 0xFF

  datatype Option<T> = None | Some(value: T)

  datatype Rect = Rect(x: int, y: int, width: int, height: int)

  /** A colour value, compared as a whole; the renderer never looks inside. */
  datatype Color = Color(r: real, g: real, b: real, a: real)

  datatype BlendState = BlendState(
    blendEnabled: bool,
    srcFactorRGB: BlendFactor, dstFactorRGB: BlendFactor,
    srcFactorAlpha: BlendFactor, dstFactorAlpha: BlendFactor,
    opRGB: BlendOp, opAlpha: BlendOp,
    colorWriteMask: bv8)

  /** The per-face part of the depth-stencil state (its own hash). */
  datatype StencilState = StencilState(failOp: StencilOp, depthFailOp: StencilOp, passOp: StencilOp, cmpFunc: CompareFunc)

  /** The part of the depth-stencil state covered by its common hash: the
      depth test and the stencil values shared by both faces. */
  datatype DepthStencilCommon = DepthStencilCommon(
    depthCmpFunc: CompareFunc, depthWriteEnabled: bool, stencilEnabled: bool,
    stencilReadMask: nat, stencilWriteMask: nat, stencilRef: int)

  datatype DepthStencilState = DepthStencilState(common: DepthStencilCommon, front: StencilState, back: StencilState)

  datatype RasterizerState = RasterizerState(
    cullFaceEnabled: bool, cullFace: FaceCode, depthOffsetEnabled: bool,
    scissorTestEnabled: bool, ditherEnabled: bool, multisampleEnabled: bool)

  /** The face a separate stencil call addresses. */
  datatype Face = Front | Back

  /** How a vertex attribute is read from its buffer. */
  datatype AttribFormat = AttribFormat(size: nat, glType: nat, normalized: bool, stride: nat, offset: nat)

  /** The renderer's description of one vertex attribute slot: the GL
      attribute index, whether it is used, which of the draw state's meshes
      feeds it, its instancing divisor and its format. */
  datatype VertexAttrib = VertexAttrib(index: nat, enabled: bool, vbIndex: nat, divisor: nat, format: AttribFormat)

  /** A default-constructed attribute: unused, everything zero. */
  const DefaultAttrib: VertexAttrib := VertexAttrib(0, false, 0, 0, AttribFormat(0, 0, false, 0, 0))

  datatype Usage = Immutable | Static | Dynamic | Stream

  datatype IndexType = NoIndices | Index16 | Index32

  /** Bytes per index. */
  function IndexByteSize(t: IndexType): (n: nat)
    requires t != NoIndices
    ensures n == 2 || n == 4
    ensures (n == 2) == (t == Index16)
  {
    if t == Index16 then 2 else 4
  }

  datatype PrimitiveGroup = PrimitiveGroup(primType: nat, baseElement: int, numElements: int)

  /** What the renderer reads of a mesh: its GL buffers, the ring of vertex
      buffer slots and the active one, index type, primitive groups, buffer
      usage and vertex buffer size in bytes. */
  datatype Mesh = Mesh(
    glIndexBuffer: nat,
    glVertexBuffers: seq<nat>,
    numVertexBufferSlots: nat,
    activeVertexBufferSlot: Byte,
    indexType: IndexType,
    primGroups: seq<PrimitiveGroup>,
    usage: Usage,
    vbByteSize: nat)

  /** The active slot is one of the mesh's slots, each with a buffer. */
  predicate MeshWf(m: Mesh) {
    0 < m.numVertexBufferSlots <= |m.glVertexBuffers| && m.activeVertexBufferSlot < m.numVertexBufferSlots
  }

  /** The vertex buffer a mesh currently draws from. */
  function ActiveVertexBuffer(m: Mesh): nat
    requires MeshWf(m)
  {
    m.glVertexBuffers[m.activeVertexBufferSlot]
  }

  datatype DrawStateSetup = DrawStateSetup(
    depthStencil: DepthStencilState, blend: BlendState, blendColor: Color,
    rasterizer: RasterizerState, programSelectionMask: nat)

  /** A draw state as the renderer sees it: its setup, the GL program its
      program bundle selects for the setup's mask, its meshes and one
      attribute description per vertex attribute slot. */
  datatype DrawState = DrawState(setup: DrawStateSetup, program: nat, meshes: seq<Mesh>, glAttrs: seq<VertexAttrib>)

  /** A draw state the renderer can apply: a first mesh, a program, an
      attribute per slot whose mesh exists, and well-formed meshes. */
  predicate DrawStateWf(ds: DrawState) {
    && |ds.meshes| > 0
    && ds.program != 0
    && |ds.glAttrs| == NumVertexAttrs
    && (forall i :: 0 <= i < |ds.glAttrs| ==> ds.glAttrs[i].vbIndex < |ds.meshes|)
    && (forall k :: 0 <= k < |ds.meshes| ==> MeshWf(ds.meshes[k]))
  }

  /** The buffer that feeds attribute slot `i` of a draw state. */
  function AttribBuffer(ds: DrawState, i: nat): nat
    requires DrawStateWf(ds) && i < NumVertexAttrs
  {
    ActiveVertexBuffer(ds.meshes[ds.glAttrs[i].vbIndex])
  }

  datatype TextureAttrs = TextureAttrs(width: int, height: int, colorFormat: nat, depthFormat: nat)

  /** An offscreen render target: a texture with its own framebuffer. */
  datatype RenderTarget = RenderTarget(texture: nat, attrs: TextureAttrs, glFramebuffer: nat)

  datatype DisplayAttrs = DisplayAttrs(
    windowWidth: int, windowHeight: int, windowPosX: int, windowPosY: int,
    framebufferWidth: int, framebufferHeight: int,
    colorPixelFormat: nat, depthPixelFormat: nat,
    samples: int, windowed: bool, swapInterval: int)
}
