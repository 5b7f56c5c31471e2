/** The OpenGL renderer's state cache: the fields it keeps, the relation
    that says they mirror the driver, and the simple cached setters. Each
    operation returns the new renderer and the driver calls it issued. */
module GlCache {
  import opened GlTypes
  import D = GlDriver

  datatype Renderer = Renderer(
    rtValid: bool,
    rtAttrs: DisplayAttrs,
    curRenderTarget: Option<RenderTarget>,
    curDrawState: Option<DrawState>,
    blend: BlendState,
    depthStencil: DepthStencilState,
    rasterizer: RasterizerState,
    scissor: Rect,
    blendColor: Color,
    viewport: Rect,
    vertexBuffer: nat,
    indexBuffer: nat,
    program: nat,
    samplers2D: seq<nat>,
    samplersCube: seq<nat>,
    glAttrs: seq<VertexAttrib>,
    glAttrVBs: seq<nat>)

  /** Which reading of a renderer step is meant: the source as written, or
      the reading with the defects this model records corrected. */
  datatype Variant = AsWritten | Corrected

  /** The result of a renderer operation. */
  datatype Out = Out(r: Renderer, calls: seq<D.GlCall>)

  /** The cache's arrays have their fixed sizes. */
  predicate Wf(r: Renderer) {
    && |r.samplers2D| == MaxTextureSamplers && |r.samplersCube| == MaxTextureSamplers
    && |r.glAttrs| == NumVertexAttrs && |r.glAttrVBs| == NumVertexAttrs
  }

  /** The driver's settings for one stencil face as a depth-stencil state
      prescribes them: the face's own function and operations with the
      shared reference value and masks. */
  function FaceSettings(s: DepthStencilState, f: Face): D.StencilFace {
    var st := if f == Front then s.front else s.back;
    D.StencilFace(st.cmpFunc, s.common.stencilRef, s.common.stencilReadMask, s.common.stencilWriteMask,
                  st.failOp, st.depthFailOp, st.passOp)
  }

  ghost predicate BlendMirrors(bs: BlendState, color: Color, d: D.Driver) {
    && d.enabled.blend == bs.blendEnabled
    && d.blendFactors == (bs.srcFactorRGB, bs.dstFactorRGB, bs.srcFactorAlpha, bs.dstFactorAlpha)
    && d.blendOps == (bs.opRGB, bs.opAlpha)
    && d.colorMask == D.ChannelFlags(bs.colorWriteMask)
    && d.blendColor == color
  }

  ghost predicate RasterizerMirrors(rs: RasterizerState, d: D.Driver) {
    && d.enabled.cullFace == rs.cullFaceEnabled
    && d.cullFace == rs.cullFace
    && d.enabled.polygonOffsetFill == rs.depthOffsetEnabled
    && d.enabled.scissorTest == rs.scissorTestEnabled
    && d.enabled.dither == rs.ditherEnabled
    && d.enabled.multisample == rs.multisampleEnabled
  }

  ghost predicate DepthStencilMirrors(s: DepthStencilState, d: D.Driver) {
    && d.depthFunc == s.common.depthCmpFunc
    && d.depthMask == s.common.depthWriteEnabled
    && d.enabled.stencilTest == s.common.stencilEnabled
    && d.front == FaceSettings(s, Front)
    && d.back == FaceSettings(s, Back)
  }

  /** The cache tells the truth about the driver: viewport, scissor rect,
      bound buffers and program, texture bindings, and the blend,
      rasterizer and depth-stencil settings are what the driver holds. */
  ghost predicate Mirrors(r: Renderer, d: D.Driver) {
    && Wf(r)
    && d.viewport == r.viewport
    && d.scissor == r.scissor
    && d.arrayBuffer == r.vertexBuffer
    && d.elementBuffer == r.indexBuffer
    && d.program == r.program
    && (forall i :: 0 <= i < MaxTextureSamplers ==>
          d.Bound(D.Texture2D, i) == r.samplers2D[i] && d.Bound(D.TextureCube, i) == r.samplersCube[i])
    && BlendMirrors(r.blend, r.blendColor, d)
    && RasterizerMirrors(r.rasterizer, d)
    && DepthStencilMirrors(r.depthStencil, d)
  }

  /** The cached attribute of slot `i` tells the truth about GL attribute
      array `i`: same enabled flag, and when enabled the same buffer,
      format and divisor. */
  ghost predicate AttribMirrorsAt(a: VertexAttrib, vb: nat, d: D.Driver, i: nat) {
    && a.index == i
    && d.Attrib(i).enabled == a.enabled
    && (a.enabled ==> d.Attrib(i).buffer == vb && d.Attrib(i).format == a.format && d.Attrib(i).divisor == a.divisor)
  }

  ghost predicate AttribMirrors(r: Renderer, d: D.Driver) {
    Wf(r) && forall i :: 0 <= i < NumVertexAttrs ==> AttribMirrorsAt(r.glAttrs[i], r.glAttrVBs[i], d, i)
  }

  /** Outside the state the cache mirrors, nothing changes. */
  ghost predicate SameOutside(d: D.Driver, d': D.Driver) {
    && d'.attribs == d.attribs
    && d'.framebuffer == d.framebuffer
  }

  /** Applies a viewport; the driver is called only when it differs. */
  function ApplyViewPort(r: Renderer, x: int, y: int, width: int, height: int): (o: Out)
    ensures o.r == r.(viewport := Rect(x, y, width, height))
    ensures o.calls == [] <==> r.viewport == Rect(x, y, width, height)
    ensures |o.calls| <= 1 && forall c :: c in o.calls ==> c == D.Viewport(Rect(x, y, width, height))
  {
    var v := Rect(x, y, width, height);
    if v != r.viewport then Out(r.(viewport := v), [D.Viewport(v)]) else Out(r, [])
  }

  /** Applies a scissor rect; the driver is called only when it differs. */
  function ApplyScissorRect(r: Renderer, x: int, y: int, width: int, height: int): (o: Out)
    ensures o.r == r.(scissor := Rect(x, y, width, height))
    ensures o.calls == [] <==> r.scissor == Rect(x, y, width, height)
    ensures |o.calls| <= 1 && forall c :: c in o.calls ==> c == D.Scissor(Rect(x, y, width, height))
  {
    var s := Rect(x, y, width, height);
    if s != r.scissor then Out(r.(scissor := s), [D.Scissor(s)]) else Out(r, [])
  }

  function BindVertexBuffer(r: Renderer, vb: nat): (o: Out)
    ensures o.r == r.(vertexBuffer := vb)
    ensures o.calls == [] <==> r.vertexBuffer == vb
    ensures |o.calls| <= 1 && forall c :: c in o.calls ==> c == D.BindBuffer(D.ArrayBuffer, vb)
  {
    if vb != r.vertexBuffer then Out(r.(vertexBuffer := vb), [D.BindBuffer(D.ArrayBuffer, vb)]) else Out(r, [])
  }

  function BindIndexBuffer(r: Renderer, ib: nat): (o: Out)
    ensures o.r == r.(indexBuffer := ib)
    ensures o.calls == [] <==> r.indexBuffer == ib
    ensures |o.calls| <= 1 && forall c :: c in o.calls ==> c == D.BindBuffer(D.ElementArrayBuffer, ib)
  {
    if ib != r.indexBuffer then Out(r.(indexBuffer := ib), [D.BindBuffer(D.ElementArrayBuffer, ib)]) else Out(r, [])
  }

  function UseProgram(r: Renderer, prog: nat): (o: Out)
    ensures o.r == r.(program := prog)
    ensures o.calls == [] <==> r.program == prog
    ensures |o.calls| <= 1 && forall c :: c in o.calls ==> c == D.UseProgram(prog)
  {
    if prog != r.program then Out(r.(program := prog), [D.UseProgram(prog)]) else Out(r, [])
  }

  /** The texture the cache holds for a sampler slot and target. */
  function Sampler(r: Renderer, target: D.TexTarget, i: nat): nat
    requires Wf(r) && i < MaxTextureSamplers
  {
    if target == D.Texture2D then r.samplers2D[i] else r.samplersCube[i]
  }

  /** Binds a texture to sampler slot `i` of the given target. Only that
      one cache entry can change. */
  function BindTexture(r: Renderer, i: int, target: D.TexTarget, tex: nat): (o: Out)
    requires Wf(r) && 0 <= i < MaxTextureSamplers
    ensures Wf(o.r) && Sampler(o.r, target, i) == tex
    ensures forall t, k :: 0 <= k < MaxTextureSamplers && (t, k) != (target, i) ==> Sampler(o.r, t, k) == Sampler(r, t, k)
    ensures o.r.(samplers2D := r.samplers2D, samplersCube := r.samplersCube) == r
    ensures o.calls == [] <==> Sampler(r, target, i) == tex
    ensures o.calls != [] ==> o.calls == [D.ActiveTexture(i), D.BindTexture(target, tex)]
  {
    if tex == Sampler(r, target, i) then Out(r, [])
    else
      var r' := if target == D.Texture2D then r.(samplers2D := r.samplers2D[i := tex])
                else r.(samplersCube := r.samplersCube[i := tex]);
      Out(r', [D.ActiveTexture(i), D.BindTexture(target, tex)])
  }

  /** Forgets the bound buffers: both buffer bindings are reset in the
      driver and the cache, and every cached attribute returns to the
      default (unused) description with no buffer. */
  function InvalidateMeshState(r: Renderer): (o: Out)
    requires Wf(r)
    ensures Wf(o.r) && o.r.vertexBuffer == 0 && o.r.indexBuffer == 0
    ensures forall i :: 0 <= i < NumVertexAttrs ==> o.r.glAttrs[i] == DefaultAttrib && o.r.glAttrVBs[i] == 0
    ensures o.r.(vertexBuffer := r.vertexBuffer, indexBuffer := r.indexBuffer,
                 glAttrs := r.glAttrs, glAttrVBs := r.glAttrVBs) == r
    ensures o.calls == [D.BindBuffer(D.ArrayBuffer, 0), D.BindBuffer(D.ElementArrayBuffer, 0)]
  {
    Out(r.(vertexBuffer := 0, indexBuffer := 0,
           glAttrs := seq(NumVertexAttrs, _ => DefaultAttrib), glAttrVBs := seq(NumVertexAttrs, _ => 0)),
        [D.BindBuffer(D.ArrayBuffer, 0), D.BindBuffer(D.ElementArrayBuffer, 0)])
  }

  /** Unbinds the program in the driver and the cache. */
  function InvalidateProgramState(r: Renderer): (o: Out)
    ensures o.r == r.(program := 0) && o.calls == [D.UseProgram(0)]
  {
    Out(r.(program := 0), [D.UseProgram(0)])
  }

  /** Forgets the texture bindings, without a driver call. */
  function InvalidateTextureState(r: Renderer): (o: Out)
    requires Wf(r)
    ensures Wf(o.r) && o.calls == []
    ensures forall t, k :: 0 <= k < MaxTextureSamplers ==> Sampler(o.r, t, k) == 0
    ensures o.r.(samplers2D := r.samplers2D, samplersCube := r.samplersCube) == r
  {
    Out(r.(samplers2D := seq(MaxTextureSamplers, _ => 0), samplersCube := seq(MaxTextureSamplers, _ => 0)), [])
  }

  /** Ends a frame: no render target is current any more. */
  function CommitFrame(r: Renderer): (o: Out)
    ensures !o.r.rtValid && o.r.curRenderTarget == None && o.calls == []
    ensures o.r.(rtValid := r.rtValid, curRenderTarget := r.curRenderTarget) == r
  {
    Out(r.(rtValid := false, curRenderTarget := None), [])
  }

  /** A repeated viewport or scissor request, binding or program change
      issues no driver call and leaves the cache as it is. */
  lemma SettersIdempotent(r: Renderer, x: int, y: int, w: int, h: int, handle: nat)
    ensures var o := ApplyViewPort(r, x, y, w, h); ApplyViewPort(o.r, x, y, w, h) == Out(o.r, [])
    ensures var o := ApplyScissorRect(r, x, y, w, h); ApplyScissorRect(o.r, x, y, w, h) == Out(o.r, [])
    ensures var o := BindVertexBuffer(r, handle); BindVertexBuffer(o.r, handle) == Out(o.r, [])
    ensures var o := BindIndexBuffer(r, handle); BindIndexBuffer(o.r, handle) == Out(o.r, [])
    ensures var o := UseProgram(r, handle); UseProgram(o.r, handle) == Out(o.r, [])
  {
  }

  /** Each cached setter keeps the cache a mirror of the driver and
      touches nothing the cache does not mirror. */
  lemma ViewPortKeepsMirrors(r: Renderer, d: D.Driver, x: int, y: int, w: int, h: int)
    requires Mirrors(r, d)
    ensures var o := ApplyViewPort(r, x, y, w, h); Mirrors(o.r, D.Exec(d, o.calls)) && SameOutside(d, D.Exec(d, o.calls))
  {
    D.ExecOne(d, D.Viewport(Rect(x, y, w, h)));
  }

  lemma ScissorRectKeepsMirrors(r: Renderer, d: D.Driver, x: int, y: int, w: int, h: int)
    requires Mirrors(r, d)
    ensures var o := ApplyScissorRect(r, x, y, w, h); Mirrors(o.r, D.Exec(d, o.calls)) && SameOutside(d, D.Exec(d, o.calls))
  {
    D.ExecOne(d, D.Scissor(Rect(x, y, w, h)));
  }

  lemma BindIndexBufferKeepsMirrors(r: Renderer, d: D.Driver, ib: nat)
    requires Mirrors(r, d)
    ensures var o := BindIndexBuffer(r, ib);
      Mirrors(o.r, D.Exec(d, o.calls)) && SameOutside(d, D.Exec(d, o.calls))
      && (AttribMirrors(r, d) ==> AttribMirrors(o.r, D.Exec(d, o.calls)))
  {
    D.ExecOne(d, D.BindBuffer(D.ElementArrayBuffer, ib));
  }

  lemma UseProgramKeepsMirrors(r: Renderer, d: D.Driver, prog: nat)
    requires Mirrors(r, d)
    ensures var o := UseProgram(r, prog);
      Mirrors(o.r, D.Exec(d, o.calls)) && SameOutside(d, D.Exec(d, o.calls))
      && (AttribMirrors(r, d) ==> AttribMirrors(o.r, D.Exec(d, o.calls)))
  {
    D.ExecOne(d, D.UseProgram(prog));
  }

  lemma InvalidateProgramStateKeepsMirrors(r: Renderer, d: D.Driver)
    requires Mirrors(r, d)
    ensures var o := InvalidateProgramState(r); Mirrors(o.r, D.Exec(d, o.calls)) && SameOutside(d, D.Exec(d, o.calls))
  {
    D.ExecOne(d, D.UseProgram(0));
  }

  /** Binding a vertex buffer keeps the cache a mirror; attribute arrays
      keep their pointers, which captured the buffer bound back then. */
  lemma BindVertexBufferKeepsMirrors(r: Renderer, d: D.Driver, vb: nat)
    requires Mirrors(r, d)
    ensures var o := BindVertexBuffer(r, vb);
      Mirrors(o.r, D.Exec(d, o.calls)) && SameOutside(d, D.Exec(d, o.calls))
      && (AttribMirrors(r, d) ==> AttribMirrors(o.r, D.Exec(d, o.calls)))
  {
    D.ExecOne(d, D.BindBuffer(D.ArrayBuffer, vb));
  }

  lemma BindTextureKeepsMirrors(r: Renderer, d: D.Driver, i: int, target: D.TexTarget, tex: nat)
    requires Mirrors(r, d) && 0 <= i < MaxTextureSamplers
    ensures var o := BindTexture(r, i, target, tex);
      Mirrors(o.r, D.Exec(d, o.calls)) && SameOutside(d, D.Exec(d, o.calls))
  {
    var o := BindTexture(r, i, target, tex);
    if o.calls != [] {
      var d1 := D.Step(d, D.ActiveTexture(i));
      var d2 := D.Step(d1, D.BindTexture(target, tex));
      assert D.Exec(d, o.calls) == d2 by {
        assert o.calls[1..] == [D.BindTexture(target, tex)];
        D.ExecOne(d1, D.BindTexture(target, tex));
      }
      forall k | 0 <= k < MaxTextureSamplers
        ensures d2.Bound(D.Texture2D, k) == o.r.samplers2D[k] && d2.Bound(D.TextureCube, k) == o.r.samplersCube[k]
      {
        assert Sampler(o.r, D.Texture2D, k) == o.r.samplers2D[k];
        assert Sampler(o.r, D.TextureCube, k) == o.r.samplersCube[k];
      }
    }
  }

  /** Invalidating the texture state makes no driver call, so afterwards the
      cache mirrors the driver in everything but its texture tables, which
      now read "nothing bound". It errs on the safe side: binding a non-zero
      texture afterwards always reaches the driver and makes that slot a
      mirror again. */
  lemma InvalidateThenBindTexture(r: Renderer, d: D.Driver, i: int, target: D.TexTarget, tex: nat)
    requires Mirrors(r, d) && 0 <= i < MaxTextureSamplers && tex != 0
    ensures var inv := InvalidateTextureState(r);
      && Mirrors(inv.r.(samplers2D := r.samplers2D, samplersCube := r.samplersCube), D.Exec(d, inv.calls))
      && var o := BindTexture(inv.r, i, target, tex);
         var d' := D.Exec(d, inv.calls + o.calls);
         && o.calls == [D.ActiveTexture(i), D.BindTexture(target, tex)]
         && d'.Bound(target, i) == tex && Sampler(o.r, target, i) == tex
         && SameOutside(d, d')
  {
    var inv := InvalidateTextureState(r);
    var o := BindTexture(inv.r, i, target, tex);
    assert inv.calls + o.calls == o.calls;
    var d1 := D.Step(d, D.ActiveTexture(i));
    var d2 := D.Step(d1, D.BindTexture(target, tex));
    assert D.Exec(d, o.calls) == d2 by {
      assert o.calls[1..] == [D.BindTexture(target, tex)];
      D.ExecOne(d1, D.BindTexture(target, tex));
    }
  }

  /** Invalidating the mesh state resets both buffer bindings in the driver
      too, so the cache stays a mirror (its attribute cache, reset without
      driver calls, is not covered by this). */
  lemma InvalidateMeshStateKeepsMirrors(r: Renderer, d: D.Driver)
    requires Mirrors(r, d)
    ensures var o := InvalidateMeshState(r); Mirrors(o.r, D.Exec(d, o.calls)) && SameOutside(d, D.Exec(d, o.calls))
  {
    var o := InvalidateMeshState(r);
    var d1 := D.Step(d, D.BindBuffer(D.ArrayBuffer, 0));
    assert o.calls[1..] == [D.BindBuffer(D.ElementArrayBuffer, 0)];
    D.ExecOne(d1, D.BindBuffer(D.ElementArrayBuffer, 0));
  }

  /** The attribute mirror depends only on the cached attributes and the
      driver's attribute arrays. */
  lemma AttribMirrorsTransfer(r: Renderer, d: D.Driver, r': Renderer, d': D.Driver)
    requires AttribMirrors(r, d)
    requires r'.glAttrs == r.glAttrs && r'.glAttrVBs == r.glAttrVBs && Wf(r') && d'.attribs == d.attribs
    ensures AttribMirrors(r', d')
  {
    forall i | 0 <= i < NumVertexAttrs
      ensures AttribMirrorsAt(r'.glAttrs[i], r'.glAttrVBs[i], d', i)
    {
      assert d'.Attrib(i) == d.Attrib(i);
      assert AttribMirrorsAt(r.glAttrs[i], r.glAttrVBs[i], d, i);
    }
  }

  /** The mirror relation does not look at the attribute caches or the
      driver's attribute arrays, and the bound array buffer only through
      the cached one. */
  lemma MirrorsIgnoresAttribs(r: Renderer, d: D.Driver, r': Renderer, d': D.Driver)
    requires Mirrors(r, d) && Wf(r')
    requires r'.(glAttrs := r.glAttrs, glAttrVBs := r.glAttrVBs, vertexBuffer := r.vertexBuffer) == r
    requires d'.(attribs := d.attribs, arrayBuffer := d.arrayBuffer) == d && d'.arrayBuffer == r'.vertexBuffer
    ensures Mirrors(r', d')
  {
    forall k | 0 <= k < MaxTextureSamplers
      ensures d'.Bound(D.Texture2D, k) == r'.samplers2D[k] && d'.Bound(D.TextureCube, k) == r'.samplersCube[k]
    {
      assert d'.Bound(D.Texture2D, k) == d.Bound(D.Texture2D, k);
      assert d'.Bound(D.TextureCube, k) == d.Bound(D.TextureCube, k);
    }
  }
}
