/** The renderer's two composite steps: applying a render target (the
    framebuffer, a full viewport and no scissor test) and applying a draw
    state (its fixed-function states, program and meshes). */
module GlRenderer {
  import opened GlTypes
  import D = GlDriver
  import opened GlCache
  import opened GlFixedFunction
  import opened GlMesh

  /** The framebuffer the driver should have bound for a render target;
      `None` is the display's default framebuffer. */
  function FramebufferFor(rt: Option<RenderTarget>): Option<nat> {
    match rt
    case None => None
    case Some(t) => Some(t.glFramebuffer)
  }

  /** The attributes of what is rendered to: the display's, or those of
      the target's texture seen as a single-sampled, full-screen display. */
  function TargetAttrs(rt: Option<RenderTarget>, display: DisplayAttrs): (a: DisplayAttrs)
    ensures rt.None? ==> a == display
    ensures rt.Some? ==>
      && a.windowWidth == a.framebufferWidth == rt.value.attrs.width
      && a.windowHeight == a.framebufferHeight == rt.value.attrs.height
      && a.windowPosX == 0 && a.windowPosY == 0 && a.samples == 1 && !a.windowed && a.swapInterval == 1
      && a.colorPixelFormat == rt.value.attrs.colorFormat && a.depthPixelFormat == rt.value.attrs.depthFormat
  {
    match rt
    case None => display
    case Some(t) =>
      DisplayAttrs(t.attrs.width, t.attrs.height, 0, 0, t.attrs.width, t.attrs.height,
                   t.attrs.colorFormat, t.attrs.depthFormat, 1, false, 1)
  }

  /** Switches the scissor test off when the cached rasterizer state has it
      on. */
  function ResetScissorTest(r: Renderer): (o: Out)
    ensures o.r == r.(rasterizer := r.rasterizer.(scissorTestEnabled := false))
    ensures o.calls == [] <==> !r.rasterizer.scissorTestEnabled
    ensures o.calls != [] ==> o.calls == [D.Disable(D.ScissorTest)]
  {
    if r.rasterizer.scissorTestEnabled then
      Out(r.(rasterizer := r.rasterizer.(scissorTestEnabled := false)), [D.Disable(D.ScissorTest)])
    else Out(r, [])
  }

  /** Makes `rt` (or the display, for `None`) the render target: binds its
      framebuffer if it is not the current target, covers it with the
      viewport and switches the scissor test off. The display's attributes
      come from the display manager, a parameter here. */
  function ApplyRenderTarget(r: Renderer, rt: Option<RenderTarget>, display: DisplayAttrs): (o: Out)
    ensures o.r.rtValid && o.r.curRenderTarget == rt && o.r.rtAttrs == TargetAttrs(rt, display)
    ensures o.r.viewport == Rect(0, 0, o.r.rtAttrs.framebufferWidth, o.r.rtAttrs.framebufferHeight)
    ensures o.r.rasterizer == r.rasterizer.(scissorTestEnabled := false)
    ensures o.r.(rtValid := r.rtValid, curRenderTarget := r.curRenderTarget, rtAttrs := r.rtAttrs,
                 viewport := r.viewport, rasterizer := r.rasterizer) == r
    ensures (exists c :: c in o.calls && (c.BindFramebuffer? || c.BindDefaultFramebuffer?)) <==> rt != r.curRenderTarget
  {
    var attrs := TargetAttrs(rt, display);
    var fb := FramebufferCalls(r.curRenderTarget, rt);
    var r1 := r.(rtAttrs := attrs, curRenderTarget := rt, rtValid := true);
    var v := ApplyViewPort(r1, 0, 0, attrs.framebufferWidth, attrs.framebufferHeight);
    var s := ResetScissorTest(v.r);
    assert fb != [] ==> (fb + v.calls + s.calls)[0] == fb[0];
    Out(s.r, fb + v.calls + s.calls)
  }

  /** The framebuffer calls of a render-target switch. */
  function FramebufferCalls(cur: Option<RenderTarget>, rt: Option<RenderTarget>): seq<D.GlCall> {
    if rt == cur then []
    else if rt.None? then [D.BindDefaultFramebuffer] else [D.BindFramebuffer(rt.value.glFramebuffer)]
  }

  lemma FramebufferCallsEffect(r: Renderer, d: D.Driver, rt: Option<RenderTarget>, r': Renderer)
    requires Mirrors(r, d) && d.framebuffer == FramebufferFor(r.curRenderTarget)
    requires r'.(rtAttrs := r.rtAttrs, curRenderTarget := r.curRenderTarget, rtValid := r.rtValid) == r
    ensures var d' := D.Exec(d, FramebufferCalls(r.curRenderTarget, rt));
      d' == d.(framebuffer := FramebufferFor(rt)) && Mirrors(r', d')
  {
    var fb := FramebufferCalls(r.curRenderTarget, rt);
    if fb != [] {
      D.ExecOne(d, fb[0]);
    }
    var d' := D.Exec(d, fb);
    forall k | 0 <= k < MaxTextureSamplers
      ensures d'.Bound(D.Texture2D, k) == r'.samplers2D[k] && d'.Bound(D.TextureCube, k) == r'.samplersCube[k]
    {
      assert d'.Bound(D.Texture2D, k) == d.Bound(D.Texture2D, k);
      assert d'.Bound(D.TextureCube, k) == d.Bound(D.TextureCube, k);
    }
  }

  lemma ResetScissorTestKeepsMirrors(r: Renderer, d: D.Driver)
    requires Mirrors(r, d)
    ensures var o := ResetScissorTest(r); var d' := D.Exec(d, o.calls);
      Mirrors(o.r, d') && SameOutside(d, d') && !d'.enabled.scissorTest && d'.viewport == d.viewport
  {
    D.CapStep(d, r.rasterizer.scissorTestEnabled, D.ScissorTest, false);
  }

  /** Applying a render target keeps the cache a mirror of the driver and
      leaves the driver with the target's framebuffer bound, the viewport
      covering it and the scissor test off, provided the driver had the
      current target's framebuffer bound. */
  lemma RenderTargetKeepsMirrors(r: Renderer, d: D.Driver, rt: Option<RenderTarget>, display: DisplayAttrs)
    requires Mirrors(r, d) && d.framebuffer == FramebufferFor(r.curRenderTarget)
    ensures var o := ApplyRenderTarget(r, rt, display); var d' := D.Exec(d, o.calls);
      && Mirrors(o.r, d') && d'.attribs == d.attribs && (AttribMirrors(r, d) ==> AttribMirrors(o.r, d'))
      && d'.framebuffer == FramebufferFor(rt)
      && d'.viewport == Rect(0, 0, o.r.rtAttrs.framebufferWidth, o.r.rtAttrs.framebufferHeight)
      && !d'.enabled.scissorTest
  {
    var o := ApplyRenderTarget(r, rt, display);
    var attrs := TargetAttrs(rt, display);
    var fb := FramebufferCalls(r.curRenderTarget, rt);
    var r1 := r.(rtAttrs := attrs, curRenderTarget := rt, rtValid := true);
    FramebufferCallsEffect(r, d, rt, r1);
    var d1 := D.Exec(d, fb);
    var v := ApplyViewPort(r1, 0, 0, attrs.framebufferWidth, attrs.framebufferHeight);
    ViewPortKeepsMirrors(r1, d1, 0, 0, attrs.framebufferWidth, attrs.framebufferHeight);
    var d2 := D.Exec(d1, v.calls);
    var s := ResetScissorTest(v.r);
    ResetScissorTestKeepsMirrors(v.r, d2);
    var d3 := D.Exec(d2, s.calls);
    D.ExecChain3(d, fb, v.calls, s.calls, d1, d2, d3);
    if AttribMirrors(r, d) {
      AttribMirrorsTransfer(r, d, o.r, d3);
    }
  }

  /** Ending a frame forgets the render target without touching the
      driver, so the next frame's request for the display is taken as no
      change: a framebuffer bound last frame stays bound. */
  lemma DisplayAfterCommitKeepsOldFramebuffer(r: Renderer, d: D.Driver, display: DisplayAttrs, fb: nat)
    requires d.framebuffer == Some(fb)
    ensures var c := CommitFrame(r); var o := ApplyRenderTarget(c.r, None, display);
      D.Exec(d, c.calls + o.calls).framebuffer == Some(fb) != FramebufferFor(None)
  {
    var c := CommitFrame(r);
    var o := ApplyRenderTarget(c.r, None, display);
    var attrs := TargetAttrs(None, display);
    var r1 := c.r.(rtAttrs := attrs, curRenderTarget := None, rtValid := true);
    var v := ApplyViewPort(r1, 0, 0, attrs.framebufferWidth, attrs.framebufferHeight);
    var s := ResetScissorTest(v.r);
    assert c.calls + o.calls == v.calls + s.calls;
    if v.calls != [] {
      D.ExecOne(d, v.calls[0]);
    }
    var d1 := D.Exec(d, v.calls);
    if s.calls != [] {
      D.ExecOne(d1, s.calls[0]);
    }
    D.ExecAppend(d, v.calls, s.calls);
  }

  /** Applies a blend colour when it differs from the cached one. */
  function ApplyBlendColor(r: Renderer, color: Color): (o: Out)
    ensures o.r == r.(blendColor := color)
    ensures o.calls == [] <==> r.blendColor == color
    ensures o.calls != [] ==> o.calls == [D.BlendColor(color)]
  {
    if color != r.blendColor then Out(r.(blendColor := color), [D.BlendColor(color)]) else Out(r, [])
  }

  lemma BlendColorKeepsMirrors(r: Renderer, d: D.Driver, color: Color)
    requires Mirrors(r, d)
    ensures var o := ApplyBlendColor(r, color); Mirrors(o.r, D.Exec(d, o.calls)) && SameOutside(d, D.Exec(d, o.calls))
  {
    D.BlendColorStep(d, color != r.blendColor, color);
  }

  /** A sub-state applier run only when the requested state differs from
      the cached one, as the draw-state step guards each of them. */
  function IfChanged(changed: bool, r: Renderer, o: Out): Out {
    if changed then o else Out(r, [])
  }

  /** The setup's four fixed-function states match the cache. */
  predicate FixedFunctionCached(r: Renderer, setup: DrawStateSetup) {
    setup.depthStencil == r.depthStencil && setup.blend == r.blend && setup.blendColor == r.blendColor
    && setup.rasterizer == r.rasterizer
  }

  /** The fixed-function part of a draw state in the given reading:
      depth-stencil, blend, blend colour and rasterizer state, each only
      when it differs from the cache. Afterwards the cache holds all four. */
  function ApplyFixedFunctionWith(r: Renderer, setup: DrawStateSetup, v: Variant): (o: Out)
    ensures o.r == r.(depthStencil := setup.depthStencil, blend := setup.blend, blendColor := setup.blendColor,
                      rasterizer := setup.rasterizer)
    ensures FixedFunctionCached(r, setup) ==> o.calls == []
    ensures v == Corrected ==> (o.calls == [] <==> FixedFunctionCached(r, setup))
  {
    var o1 := IfChanged(setup.depthStencil != r.depthStencil, r, DepthStencilApplier(r, setup.depthStencil, v));
    var o2 := IfChanged(setup.blend != o1.r.blend, o1.r, ApplyBlendState(o1.r, setup.blend));
    var o3 := ApplyBlendColor(o2.r, setup.blendColor);
    var o4 := IfChanged(setup.rasterizer != o3.r.rasterizer, o3.r, ApplyRasterizerState(o3.r, setup.rasterizer));
    Out(o4.r, o1.calls + o2.calls + o3.calls + o4.calls)
  }

  /** The fixed-function step as the source writes it. The cache takes the
      four states; a request the cache already holds sends nothing. */
  function ApplyFixedFunctionAsWritten(r: Renderer, setup: DrawStateSetup): (o: Out)
    ensures o.r == r.(depthStencil := setup.depthStencil, blend := setup.blend, blendColor := setup.blendColor,
                      rasterizer := setup.rasterizer)
    ensures FixedFunctionCached(r, setup) ==> o.calls == []
  {
    ApplyFixedFunctionWith(r, setup, AsWritten)
  }

  /** The fixed-function step with the corrected depth-stencil applier:
      it sends nothing exactly when the cache already holds the request. */
  function ApplyFixedFunction(r: Renderer, setup: DrawStateSetup): (o: Out)
    ensures o.r == r.(depthStencil := setup.depthStencil, blend := setup.blend, blendColor := setup.blendColor,
                      rasterizer := setup.rasterizer)
    ensures o.calls == [] <==> FixedFunctionCached(r, setup)
  {
    ApplyFixedFunctionWith(r, setup, Corrected)
  }

  /** The corrected fixed-function step keeps the cache a mirror. */
  lemma FixedFunctionKeepsMirrors(r: Renderer, d: D.Driver, setup: DrawStateSetup)
    requires Mirrors(r, d)
    ensures var o := ApplyFixedFunction(r, setup); Mirrors(o.r, D.Exec(d, o.calls)) && SameOutside(d, D.Exec(d, o.calls))
  {
    assert ApplyFixedFunction(r, setup) == ApplyFixedFunctionWith(r, setup, Corrected);
    var o1 := IfChanged(setup.depthStencil != r.depthStencil, r, ApplyDepthStencilState(r, setup.depthStencil));
    DepthStencilStateKeepsMirrors(r, d, setup.depthStencil);
    var d1 := D.Exec(d, o1.calls);
    var o2 := IfChanged(setup.blend != o1.r.blend, o1.r, ApplyBlendState(o1.r, setup.blend));
    BlendStateKeepsMirrors(o1.r, d1, setup.blend);
    var d2 := D.Exec(d1, o2.calls);
    var o3 := ApplyBlendColor(o2.r, setup.blendColor);
    BlendColorKeepsMirrors(o2.r, d2, setup.blendColor);
    var d3 := D.Exec(d2, o3.calls);
    var o4 := IfChanged(setup.rasterizer != o3.r.rasterizer, o3.r, ApplyRasterizerState(o3.r, setup.rasterizer));
    RasterizerStateKeepsMirrors(o3.r, d3, setup.rasterizer);
    var d4 := D.Exec(d3, o4.calls);
    D.ExecChain4(d, o1.calls, o2.calls, o3.calls, o4.calls, d1, d2, d3, d4);
  }

  /** What the cache holds after `ods` is applied: for `None` nothing but
      the forgotten draw state changes; for a draw state, its fixed-function
      states, program, attribute descriptions and index buffer, with
      viewport, scissor, textures and render target left alone. */
  predicate HoldsDrawState(r: Renderer, r': Renderer, ods: Option<DrawState>)
    requires ods.Some? ==> DrawStateWf(ods.value)
  {
    && r'.curDrawState == ods
    && (ods.None? ==> r' == r.(curDrawState := None))
    && (ods.Some? ==>
      var s := ods.value.setup;
      && r'.depthStencil == s.depthStencil && r'.blend == s.blend && r'.blendColor == s.blendColor
      && r'.rasterizer == s.rasterizer && r'.program == ods.value.program
      && r'.glAttrs == ods.value.glAttrs && r'.indexBuffer == ods.value.meshes[0].glIndexBuffer
      && r'.viewport == r.viewport && r'.scissor == r.scissor
      && r'.samplers2D == r.samplers2D && r'.samplersCube == r.samplersCube
      && r'.rtValid == r.rtValid && r'.curRenderTarget == r.curRenderTarget && r'.rtAttrs == r.rtAttrs)
  }

  /** Applies a draw state in the given reading, or forgets the current one
      for `None` (a draw state still loading). A draw state's
      fixed-function states, its program and its meshes are applied, each
      sending only what differs from the cache. */
  function ApplyDrawStateWith(r: Renderer, ods: Option<DrawState>, v: Variant): (o: Out)
    requires Wf(r) && (ods.Some? ==> DrawStateWf(ods.value))
    ensures HoldsDrawState(r, o.r, ods)
    ensures ods.None? ==> o.calls == []
  {
    match ods
    case None => Out(r.(curDrawState := None), [])
    case Some(ds) =>
      var f := ApplyFixedFunctionWith(r.(curDrawState := ods), ds.setup, v);
      var p := UseProgram(f.r, ds.program);
      var m := ApplyMeshStateWith(p.r, ds, v);
      Out(m.r, f.calls + p.calls + m.calls)
  }

  /** The draw-state step as the source writes it: the cache ends up
      holding the draw state. */
  function ApplyDrawStateAsWritten(r: Renderer, ods: Option<DrawState>): (o: Out)
    requires Wf(r) && (ods.Some? ==> DrawStateWf(ods.value))
    ensures HoldsDrawState(r, o.r, ods)
    ensures ods.None? ==> o.calls == []
  {
    ApplyDrawStateWith(r, ods, AsWritten)
  }

  /** The draw-state step built from the corrected appliers. */
  function ApplyDrawState(r: Renderer, ods: Option<DrawState>): (o: Out)
    requires Wf(r) && (ods.Some? ==> DrawStateWf(ods.value))
    ensures HoldsDrawState(r, o.r, ods)
    ensures ods.None? ==> o.calls == []
  {
    ApplyDrawStateWith(r, ods, Corrected)
  }

  /** Where the two readings meet: unless the request changes a shared
      stencil value, or some attribute slot is cached disabled and
      described enabled with the divisor it had, the draw-state step as
      written sends exactly the corrected step's calls. */
  lemma DrawStateReadingsAgree(r: Renderer, ds: DrawState)
    requires Wf(r) && DrawStateWf(ds)
    requires !SharedStencilChanged(r.depthStencil.common, ds.setup.depthStencil.common)
    requires forall k :: 0 <= k < NumVertexAttrs ==>
      DivisorCall(AsWritten, r.glAttrs[k], ds.glAttrs[k]) == DivisorCall(Corrected, r.glAttrs[k], ds.glAttrs[k])
    ensures ApplyDrawStateAsWritten(r, Some(ds)) == ApplyDrawState(r, Some(ds))
  {
    var r0 := r.(curDrawState := Some(ds));
    DepthStencilReadingsAgree(r0, ds.setup.depthStencil);
    var f := ApplyFixedFunctionWith(r0, ds.setup, Corrected);
    assert ApplyFixedFunctionWith(r0, ds.setup, AsWritten) == f;
    var p := UseProgram(f.r, ds.program);
    MeshStateReadingsAgree(p.r, ds);
  }

  /** In those cases the draw-state step as written keeps the cache a
      mirror of the driver too. */
  lemma DrawStateAsWrittenKeepsMirrors(r: Renderer, d: D.Driver, ds: DrawState)
    requires Mirrors(r, d) && AttribMirrors(r, d) && DrawStateWf(ds) && SlotsIndexed(ds)
    requires !SharedStencilChanged(r.depthStencil.common, ds.setup.depthStencil.common)
    requires forall k :: 0 <= k < NumVertexAttrs ==>
      DivisorCall(AsWritten, r.glAttrs[k], ds.glAttrs[k]) == DivisorCall(Corrected, r.glAttrs[k], ds.glAttrs[k])
    ensures var o := ApplyDrawStateAsWritten(r, Some(ds)); var d' := D.Exec(d, o.calls);
      && Mirrors(o.r, d') && AttribMirrors(o.r, d') && d'.framebuffer == d.framebuffer
  {
    DrawStateReadingsAgree(r, ds);
    DrawStateKeepsMirrors(r, d, ds);
  }

  /** The corrected draw-state step keeps the cache a mirror of the
      driver, attribute arrays included, and leaves the framebuffer alone. */
  lemma DrawStateKeepsMirrors(r: Renderer, d: D.Driver, ds: DrawState)
    requires Mirrors(r, d) && AttribMirrors(r, d) && DrawStateWf(ds) && SlotsIndexed(ds)
    ensures var o := ApplyDrawState(r, Some(ds)); var d' := D.Exec(d, o.calls);
      && Mirrors(o.r, d') && AttribMirrors(o.r, d') && d'.framebuffer == d.framebuffer
  {
    var r0 := r.(curDrawState := Some(ds));
    var f := ApplyFixedFunction(r0, ds.setup);
    FixedFunctionKeepsMirrors(r0, d, ds.setup);
    var d1 := D.Exec(d, f.calls);
    var p := UseProgram(f.r, ds.program);
    UseProgramKeepsMirrors(f.r, d1, ds.program);
    var d2 := D.Exec(d1, p.calls);
    assert p.r.glAttrs == r.glAttrs && p.r.glAttrVBs == r.glAttrVBs && d2.attribs == d.attribs;
    AttribMirrorsTransfer(r, d, p.r, d2);
    MeshStateKeepsMirrors(p.r, d2, ds);
    var m := ApplyMeshState(p.r, ds);
    var d3 := D.Exec(d2, m.calls);
    D.ExecChain3(d, f.calls, p.calls, m.calls, d1, d2, d3);
    assert ApplyDrawState(r, Some(ds)) == Out(m.r, f.calls + p.calls + m.calls) by {
      assert ApplyFixedFunctionWith(r0, ds.setup, Corrected) == f;
      assert ApplyMeshStateWith(p.r, ds, Corrected) == m;
    }
  }

  /** After the corrected draw-state step the driver is set up exactly as
      the draw state describes: its blend, rasterizer and depth-stencil
      settings, its program, its index buffer and its vertex attribute
      arrays. */
  lemma DrawStateConfiguresDriver(r: Renderer, d: D.Driver, ds: DrawState)
    requires Mirrors(r, d) && AttribMirrors(r, d) && DrawStateWf(ds) && SlotsIndexed(ds)
    ensures var o := ApplyDrawState(r, Some(ds)); var d' := D.Exec(d, o.calls);
      && BlendMirrors(ds.setup.blend, ds.setup.blendColor, d')
      && RasterizerMirrors(ds.setup.rasterizer, d')
      && DepthStencilMirrors(ds.setup.depthStencil, d')
      && d'.program == ds.program && d'.elementBuffer == ds.meshes[0].glIndexBuffer
      && forall k :: 0 <= k < NumVertexAttrs ==>
           d'.Attrib(k).enabled == ds.glAttrs[k].enabled
           && (ds.glAttrs[k].enabled ==>
                 d'.Attrib(k).buffer == AttribBuffer(ds, k) && d'.Attrib(k).format == ds.glAttrs[k].format
                 && d'.Attrib(k).divisor == ds.glAttrs[k].divisor)
  {
    DrawStateKeepsMirrors(r, d, ds);
    var o := ApplyDrawState(r, Some(ds));
    var d' := D.Exec(d, o.calls);
    forall k | 0 <= k < NumVertexAttrs
      ensures d'.Attrib(k).enabled == ds.glAttrs[k].enabled
      ensures ds.glAttrs[k].enabled ==>
                d'.Attrib(k).buffer == AttribBuffer(ds, k) && d'.Attrib(k).format == ds.glAttrs[k].format
                && d'.Attrib(k).divisor == ds.glAttrs[k].divisor
    {
      assert AttribMirrorsAt(o.r.glAttrs[k], o.r.glAttrVBs[k], d', k);
      assert o.r.glAttrs[k] == ds.glAttrs[k];
    }
  }

  /** Applying the same draw state twice sends nothing the second time. */
  lemma DrawStateIdempotent(r: Renderer, ds: DrawState)
    requires Wf(r) && DrawStateWf(ds)
    ensures var o := ApplyDrawState(r, Some(ds)); ApplyDrawState(o.r, Some(ds)) == Out(o.r, [])
  {
    var o := ApplyDrawState(r, Some(ds));
    var f := ApplyFixedFunction(o.r, ds.setup);
    assert f == Out(o.r, []);
    var p := UseProgram(f.r, ds.program);
    assert p == Out(o.r, []);
    SettledMeshStateIsQuiet(o.r, ds);
  }
}
