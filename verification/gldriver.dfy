/** The OpenGL driver as the renderer sees it: the calls it issues, as
    events, and a reference semantics for the part of the driver state
    those calls set. The renderer's cache is meant to mirror that state. */
module GlDriver {
  import opened GlTypes

  datatype Cap = BlendCap | CullFaceCap | PolygonOffsetFill | ScissorTest | Dither | Multisample | StencilTest | DepthTest

  /** Which capabilities are enabled, one flag per capability. */
  datatype Caps = Caps(
    blend: bool, cullFace: bool, polygonOffsetFill: bool, scissorTest: bool,
    dither: bool, multisample: bool, stencilTest: bool, depthTest: bool)
  {
    function Has(cap: Cap): bool {
      match cap
      case BlendCap => blend
      case CullFaceCap => cullFace
      case PolygonOffsetFill => polygonOffsetFill
      case ScissorTest => scissorTest
      case Dither => dither
      case Multisample => multisample
      case StencilTest => stencilTest
      case DepthTest => depthTest
    }

    function Set(cap: Cap, on: bool): Caps {
      match cap
      case BlendCap => this.(blend := on)
      case CullFaceCap => this.(cullFace := on)
      case PolygonOffsetFill => this.(polygonOffsetFill := on)
      case ScissorTest => this.(scissorTest := on)
      case Dither => this.(dither := on)
      case Multisample => this.(multisample := on)
      case StencilTest => this.(stencilTest := on)
      case DepthTest => this.(depthTest := on)
    }
  }

  datatype BufferTarget = ArrayBuffer | ElementArrayBuffer

  datatype TexTarget = Texture2D | TextureCube

  /** One driver call. Enum arguments carry the renderer's codes; the
      translation to GL constants is a fixed table outside this model. */
  datatype GlCall =
    | Viewport(rect: Rect)
    | Scissor(rect: Rect)
    | Enable(cap: Cap)
    | Disable(cap: Cap)
    | BindBuffer(target: BufferTarget, buffer: nat)
    | UseProgram(program: nat)
    | ActiveTexture(unit: nat)
    | BindTexture(texTarget: TexTarget, texture: nat)
    | BindFramebuffer(framebuffer: nat)
    | BindDefaultFramebuffer
    | BlendFuncSeparate(srcRGB: BlendFactor, dstRGB: BlendFactor, srcAlpha: BlendFactor, dstAlpha: BlendFactor)
    | BlendEquationSeparate(opRGB: BlendOp, opAlpha: BlendOp)
    | ColorMask(red: bool, green: bool, blue: bool, alpha: bool)
    | BlendColor(color: Color)
    | CullFace(face: FaceCode)
    | DepthFunc(func: CompareFunc)
    | DepthMask(flag: bool)
    | StencilFuncSeparate(stencilFace: Face, sfunc: CompareFunc, ref: int, readMask: nat)
    | StencilOpSeparate(stencilFace: Face, sfail: StencilOp, dpfail: StencilOp, dppass: StencilOp)
    | StencilMaskSeparate(stencilFace: Face, writeMask: nat)
    | StencilMask(mask: nat)
    | ClearColor(clearColor: Color)
    | ClearDepth(clearDepth: real)
    | ClearStencil(clearStencil: Byte)
    | ClearBuffers(colorBit: bool, depthBit: bool, stencilBit: bool)
    | VertexAttribPointer(attrIndex: nat, format: AttribFormat)
    | EnableVertexAttribArray(attrIndex: nat)
    | DisableVertexAttribArray(attrIndex: nat)
    | VertexAttribDivisor(attrIndex: nat, divisor: nat)
    | DrawElements(primType: nat, count: int, indexType: IndexType, byteOffset: int)
    | DrawArrays(primType: nat, first: int, count: int)
    | DrawElementsInstanced(primType: nat, count: int, indexType: IndexType, byteOffset: int, instances: int)
    | DrawArraysInstanced(primType: nat, first: int, count: int, instances: int)
    | BufferSubData(numBytes: nat)

  /** The driver's stencil settings for one face. */
  datatype StencilFace = StencilFace(
    func: CompareFunc, ref: int, readMask: nat, writeMask: nat,
    sfail: StencilOp, dpfail: StencilOp, dppass: StencilOp)

  /** The driver's state of one vertex attribute array: enabled or not, the
      buffer bound when its pointer was set, the pointer's format, and its
      divisor. */
  datatype AttribArray = AttribArray(enabled: bool, buffer: nat, format: AttribFormat, divisor: nat)

  const InitialAttribArray: AttribArray := AttribArray(false, 0, AttribFormat(0, 0, false, 0, 0), 0)

  datatype Driver = Driver(
    viewport: Rect,
    scissor: Rect,
    enabled: Caps,
    arrayBuffer: nat,
    elementBuffer: nat,
    program: nat,
    activeUnit: nat,
    tex2D: map<nat, nat>,
    texCube: map<nat, nat>,
    framebuffer: Option<nat>,
    blendFactors: (BlendFactor, BlendFactor, BlendFactor, BlendFactor),
    blendOps: (BlendOp, BlendOp),
    colorMask: (bool, bool, bool, bool),
    blendColor: Color,
    cullFace: FaceCode,
    depthFunc: CompareFunc,
    depthMask: bool,
    front: StencilFace,
    back: StencilFace,
    attribs: map<nat, AttribArray>)
  {
    /** The texture bound to `target` on texture unit `u`; 0 if none. */
    function Bound(target: TexTarget, u: nat): nat {
      var m := if target == Texture2D then tex2D else texCube;
      if u in m then m[u] else 0
    }

    /** The state of attribute array `i`. */
    function Attrib(i: nat): AttribArray {
      if i in attribs then attribs[i] else InitialAttribArray
    }

    /** The settings of one stencil face. */
    function Stencil(f: Face): StencilFace {
      if f == Front then front else back
    }

    function WithStencil(f: Face, s: StencilFace): Driver {
      if f == Front then this.(front := s) else this.(back := s)
    }
  }

  /** Setting a face's stencil settings twice keeps the second. */
  lemma WithStencilTwice(d: Driver, f: Face, a: StencilFace, b: StencilFace)
    ensures d.WithStencil(f, a).Stencil(f) == a
    ensures d.WithStencil(f, a).WithStencil(f, b) == d.WithStencil(f, b)
  {
  }

  /** The effect of one call on the driver state. Clears, draws and buffer
      uploads change none of the state modelled here. */
  function Step(d: Driver, c: GlCall): Driver {
    match c
    case Viewport(rect) => SetViewport(d, rect)
    case Scissor(rect) => SetScissor(d, rect)
    case Enable(cap) => SetEnabled(d, d.enabled.Set(cap, true))
    case Disable(cap) => SetEnabled(d, d.enabled.Set(cap, false))
    case BindBuffer(target, buffer) => SetBuffer(d, target, buffer)
    case UseProgram(program) => SetProgram(d, program)
    case ActiveTexture(unit) => SetActiveUnit(d, unit)
    case BindTexture(target, texture) => SetTexture(d, target, texture)
    case BindFramebuffer(fb) => SetFramebuffer(d, Some(fb))
    case BindDefaultFramebuffer => SetFramebuffer(d, None)
    case BlendFuncSeparate(sr, dr, sa, da) => SetBlendFactors(d, (sr, dr, sa, da))
    case BlendEquationSeparate(o1, o2) => SetBlendOps(d, (o1, o2))
    case ColorMask(r, g, b, a) => SetColorMask(d, (r, g, b, a))
    case BlendColor(color) => SetBlendColor(d, color)
    case CullFace(face) => SetCullFace(d, face)
    case DepthFunc(func) => SetDepthFunc(d, func)
    case DepthMask(flag) => SetDepthMask(d, flag)
    case StencilFuncSeparate(f, func, ref, mask) => SetStencil(d, f, d.Stencil(f).(func := func, ref := ref, readMask := mask))
    case StencilOpSeparate(f, sfail, dpfail, dppass) => SetStencil(d, f, d.Stencil(f).(sfail := sfail, dpfail := dpfail, dppass := dppass))
    case StencilMaskSeparate(f, mask) => SetStencil(d, f, d.Stencil(f).(writeMask := mask))
    case StencilMask(mask) => SetStencilMasks(d, mask)
    case VertexAttribPointer(i, format) => SetAttrib(d, i, d.Attrib(i).(buffer := d.arrayBuffer, format := format))
    case EnableVertexAttribArray(i) => SetAttrib(d, i, d.Attrib(i).(enabled := true))
    case DisableVertexAttribArray(i) => SetAttrib(d, i, d.Attrib(i).(enabled := false))
    case VertexAttribDivisor(i, divisor) => SetAttrib(d, i, d.Attrib(i).(divisor := divisor))
    case _ => d
  }

  // One setter per piece of driver state.

  function SetViewport(d: Driver, rect: Rect): Driver { d.(viewport := rect) }
  function SetScissor(d: Driver, rect: Rect): Driver { d.(scissor := rect) }
  function SetEnabled(d: Driver, e: Caps): Driver { d.(enabled := e) }
  function SetBuffer(d: Driver, target: BufferTarget, buffer: nat): Driver {
    if target == ArrayBuffer then d.(arrayBuffer := buffer) else d.(elementBuffer := buffer)
  }
  function SetProgram(d: Driver, program: nat): Driver { d.(program := program) }
  function SetActiveUnit(d: Driver, unit: nat): Driver { d.(activeUnit := unit) }
  function SetTexture(d: Driver, target: TexTarget, texture: nat): Driver {
    if target == Texture2D then d.(tex2D := d.tex2D[d.activeUnit := texture])
    else d.(texCube := d.texCube[d.activeUnit := texture])
  }
  function SetFramebuffer(d: Driver, fb: Option<nat>): Driver { d.(framebuffer := fb) }
  function SetBlendFactors(d: Driver, f: (BlendFactor, BlendFactor, BlendFactor, BlendFactor)): Driver { d.(blendFactors := f) }
  function SetBlendOps(d: Driver, o: (BlendOp, BlendOp)): Driver { d.(blendOps := o) }
  function SetColorMask(d: Driver, m: (bool, bool, bool, bool)): Driver { d.(colorMask := m) }
  function SetBlendColor(d: Driver, color: Color): Driver { d.(blendColor := color) }
  function SetCullFace(d: Driver, face: FaceCode): Driver { d.(cullFace := face) }
  function SetDepthFunc(d: Driver, func: CompareFunc): Driver { d.(depthFunc := func) }
  function SetDepthMask(d: Driver, flag: bool): Driver { d.(depthMask := flag) }
  function SetStencil(d: Driver, f: Face, s: StencilFace): Driver { d.WithStencil(f, s) }
  function SetStencilMasks(d: Driver, mask: nat): Driver {
    d.(front := d.front.(writeMask := mask), back := d.back.(writeMask := mask))
  }
  function SetAttrib(d: Driver, i: nat, a: AttribArray): Driver { d.(attribs := d.attribs[i := a]) }

  /** The driver state after a sequence of calls, first call first. */
  function Exec(d: Driver, calls: seq<GlCall>): Driver
    decreases |calls|
  {
    if |calls| == 0 then d else Exec(Step(d, calls[0]), calls[1..])
  }

  /** Running two call sequences one after the other is running their
      concatenation. */
  lemma {:induction false} ExecAppend(d: Driver, a: seq<GlCall>, b: seq<GlCall>)
    ensures Exec(d, a + b) == Exec(Exec(d, a), b)
    decreases |a|
  {
    if |a| > 0 {
      assert (a + b)[1..] == a[1..] + b;
      ExecAppend(Step(d, a[0]), a[1..], b);
    } else {
      assert a + b == b;
    }
  }

  lemma ExecOne(d: Driver, c: GlCall)
    ensures Exec(d, [c]) == Step(d, c)
  {
    assert [c][1..] == [];
  }

  /** A call made only when `cond` holds. */
  function When(cond: bool, c: GlCall): seq<GlCall> {
    if cond then [c] else []
  }

  lemma ExecWhen(d: Driver, cond: bool, c: GlCall)
    ensures Exec(d, When(cond, c)) == if cond then Step(d, c) else d
  {
    if cond {
      ExecOne(d, c);
    }
  }

  /** Enables or disables a capability. */
  function Toggle(cap: Cap, on: bool): GlCall {
    if on then Enable(cap) else Disable(cap)
  }

  /** Running call sequences one after another, from known intermediate
      states. */
  lemma ExecChain2(d: Driver, a: seq<GlCall>, b: seq<GlCall>, d1: Driver, d2: Driver)
    requires Exec(d, a) == d1 && Exec(d1, b) == d2
    ensures Exec(d, a + b) == d2
  {
    ExecAppend(d, a, b);
  }

  lemma ExecChain3(d: Driver, a: seq<GlCall>, b: seq<GlCall>, c: seq<GlCall>, d1: Driver, d2: Driver, d3: Driver)
    requires Exec(d, a) == d1 && Exec(d1, b) == d2 && Exec(d2, c) == d3
    ensures Exec(d, a + b + c) == d3
  {
    ExecAppend(d, a + b, c);
    ExecAppend(d, a, b);
  }

  lemma ExecChain4(d: Driver, a: seq<GlCall>, b: seq<GlCall>, c: seq<GlCall>, e: seq<GlCall>,
                   d1: Driver, d2: Driver, d3: Driver, d4: Driver)
    requires Exec(d, a) == d1 && Exec(d1, b) == d2 && Exec(d2, c) == d3 && Exec(d3, e) == d4
    ensures Exec(d, a + b + c + e) == d4
  {
    ExecAppend(d, a + b + c, e);
    ExecChain3(d, a, b, c, d1, d2, d3);
  }

  /** Calls that change none of the modelled driver state: clears, draws
      and buffer uploads. */
  predicate Inert(c: GlCall) {
    || c.ClearColor? || c.ClearDepth? || c.ClearStencil? || c.ClearBuffers?
    || c.DrawElements? || c.DrawArrays? || c.DrawElementsInstanced? || c.DrawArraysInstanced?
    || c.BufferSubData?
  }

  lemma {:induction false} ExecInert(d: Driver, calls: seq<GlCall>)
    requires forall i :: 0 <= i < |calls| ==> Inert(calls[i])
    ensures Exec(d, calls) == d
    decreases |calls|
  {
    if |calls| > 0 {
      assert Step(d, calls[0]) == d;
      ExecInert(d, calls[1..]);
    }
  }

  // The effect of each optional setter call: when it is skipped, the
  // driver already held the value it would have set.

  lemma CapStep(d: Driver, cond: bool, cap: Cap, on: bool)
    requires !cond ==> d.enabled.Has(cap) == on
    ensures Exec(d, When(cond, Toggle(cap, on))) == d.(enabled := d.enabled.Set(cap, on))
  {
    ExecWhen(d, cond, Toggle(cap, on));
    if !cond {
      assert d.enabled.Set(cap, on) == d.enabled;
    }
  }

  lemma BlendFuncStep(d: Driver, cond: bool, f: (BlendFactor, BlendFactor, BlendFactor, BlendFactor))
    requires !cond ==> d.blendFactors == f
    ensures Exec(d, When(cond, BlendFuncSeparate(f.0, f.1, f.2, f.3))) == d.(blendFactors := f)
  {
    ExecWhen(d, cond, BlendFuncSeparate(f.0, f.1, f.2, f.3));
  }

  lemma BlendEquationStep(d: Driver, cond: bool, o: (BlendOp, BlendOp))
    requires !cond ==> d.blendOps == o
    ensures Exec(d, When(cond, BlendEquationSeparate(o.0, o.1))) == d.(blendOps := o)
  {
    ExecWhen(d, cond, BlendEquationSeparate(o.0, o.1));
  }

  lemma ColorMaskStep(d: Driver, cond: bool, m: (bool, bool, bool, bool))
    requires !cond ==> d.colorMask == m
    ensures Exec(d, When(cond, ColorMask(m.0, m.1, m.2, m.3))) == d.(colorMask := m)
  {
    ExecWhen(d, cond, ColorMask(m.0, m.1, m.2, m.3));
  }

  lemma StencilMaskBothStep(d: Driver, cond: bool, mask: nat)
    requires !cond ==> d.front.writeMask == mask && d.back.writeMask == mask
    ensures Exec(d, When(cond, StencilMask(mask))) == d.(front := d.front.(writeMask := mask), back := d.back.(writeMask := mask))
  {
    ExecWhen(d, cond, StencilMask(mask));
  }

  lemma BlendColorStep(d: Driver, cond: bool, color: Color)
    requires !cond ==> d.blendColor == color
    ensures Exec(d, When(cond, BlendColor(color))) == d.(blendColor := color)
  {
    ExecWhen(d, cond, BlendColor(color));
  }

  lemma CullFaceStep(d: Driver, cond: bool, face: FaceCode)
    requires !cond ==> d.cullFace == face
    ensures Exec(d, When(cond, CullFace(face))) == d.(cullFace := face)
  {
    ExecWhen(d, cond, CullFace(face));
  }

  lemma DepthFuncStep(d: Driver, cond: bool, func: CompareFunc)
    requires !cond ==> d.depthFunc == func
    ensures Exec(d, When(cond, DepthFunc(func))) == d.(depthFunc := func)
  {
    ExecWhen(d, cond, DepthFunc(func));
  }

  lemma DepthMaskStep(d: Driver, cond: bool, flag: bool)
    requires !cond ==> d.depthMask == flag
    ensures Exec(d, When(cond, DepthMask(flag))) == d.(depthMask := flag)
  {
    ExecWhen(d, cond, DepthMask(flag));
  }

  lemma StencilFuncStep(d: Driver, cond: bool, f: Face, func: CompareFunc, ref: int, mask: nat)
    requires !cond ==> d.Stencil(f).func == func && d.Stencil(f).ref == ref && d.Stencil(f).readMask == mask
    ensures Exec(d, When(cond, StencilFuncSeparate(f, func, ref, mask)))
         == d.WithStencil(f, d.Stencil(f).(func := func, ref := ref, readMask := mask))
  {
    ExecWhen(d, cond, StencilFuncSeparate(f, func, ref, mask));
  }

  lemma StencilOpStep(d: Driver, cond: bool, f: Face, sfail: StencilOp, dpfail: StencilOp, dppass: StencilOp)
    requires !cond ==> d.Stencil(f).sfail == sfail && d.Stencil(f).dpfail == dpfail && d.Stencil(f).dppass == dppass
    ensures Exec(d, When(cond, StencilOpSeparate(f, sfail, dpfail, dppass)))
         == d.WithStencil(f, d.Stencil(f).(sfail := sfail, dpfail := dpfail, dppass := dppass))
  {
    ExecWhen(d, cond, StencilOpSeparate(f, sfail, dpfail, dppass));
  }

  lemma StencilMaskStep(d: Driver, cond: bool, f: Face, mask: nat)
    requires !cond ==> d.Stencil(f).writeMask == mask
    ensures Exec(d, When(cond, StencilMaskSeparate(f, mask))) == d.WithStencil(f, d.Stencil(f).(writeMask := mask))
  {
    ExecWhen(d, cond, StencilMaskSeparate(f, mask));
  }

  /** `d'` is `d` with attribute array `i` changed to `a` and, possibly,
      another array buffer bound. */
  ghost predicate AttribSet(d: Driver, d': Driver, i: nat, a: AttribArray) {
    && d'.(attribs := d.attribs, arrayBuffer := d.arrayBuffer) == d
    && d'.Attrib(i) == a
    && forall k :: k != i ==> d'.Attrib(k) == d.Attrib(k)
  }

  lemma AttribPointerStep(d: Driver, i: nat, format: AttribFormat)
    ensures AttribSet(d, Exec(d, [VertexAttribPointer(i, format)]), i, d.Attrib(i).(buffer := d.arrayBuffer, format := format))
    ensures Exec(d, [VertexAttribPointer(i, format)]).arrayBuffer == d.arrayBuffer
  {
    ExecOne(d, VertexAttribPointer(i, format));
  }

  lemma AttribEnableStep(d: Driver, cond: bool, i: nat, on: bool)
    requires !cond ==> d.Attrib(i).enabled == on
    ensures var c := if on then EnableVertexAttribArray(i) else DisableVertexAttribArray(i);
      AttribSet(d, Exec(d, When(cond, c)), i, d.Attrib(i).(enabled := on))
      && Exec(d, When(cond, c)).arrayBuffer == d.arrayBuffer
  {
    var c := if on then EnableVertexAttribArray(i) else DisableVertexAttribArray(i);
    ExecWhen(d, cond, c);
  }

  lemma AttribDivisorStep(d: Driver, cond: bool, i: nat, divisor: nat)
    ensures AttribSet(d, Exec(d, When(cond, VertexAttribDivisor(i, divisor))), i,
                      d.Attrib(i).(divisor := if cond then divisor else d.Attrib(i).divisor))
    ensures Exec(d, When(cond, VertexAttribDivisor(i, divisor))).arrayBuffer == d.arrayBuffer
  {
    ExecWhen(d, cond, VertexAttribDivisor(i, divisor));
  }

  /** The channel flags a colour write mask enables. */
  function ChannelFlags(mask: bv8): (bool, bool, bool, bool) {
    (mask & ChannelR != 0, mask & ChannelG != 0, mask & ChannelB != 0, mask & ChannelA != 0)
  }
}
