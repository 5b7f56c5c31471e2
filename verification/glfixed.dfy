/** The fixed-function appliers of the OpenGL renderer: blend, rasterizer
    and depth-stencil state, and the state a clear forces. Each compares
    the request with the cache, calls the driver for what differs, and
    leaves the request in the cache. */
module GlFixedFunction {
  import opened GlTypes
  import D = GlDriver
  import opened GlCache

  // ---------------------------------------------------------------- blend

  /** The calls that take the driver from blend state `cur` to `bs`. */
  function BlendCalls(cur: BlendState, bs: BlendState): seq<D.GlCall> {
    var mask := D.ChannelFlags(bs.colorWriteMask);
    D.When(bs.blendEnabled != cur.blendEnabled, D.Toggle(D.BlendCap, bs.blendEnabled))
    + D.When(bs.srcFactorRGB != cur.srcFactorRGB || bs.dstFactorRGB != cur.dstFactorRGB
             || bs.srcFactorAlpha != cur.srcFactorAlpha || bs.dstFactorAlpha != cur.dstFactorAlpha,
             D.BlendFuncSeparate(bs.srcFactorRGB, bs.dstFactorRGB, bs.srcFactorAlpha, bs.dstFactorAlpha))
    + D.When(bs.opRGB != cur.opRGB || bs.opAlpha != cur.opAlpha, D.BlendEquationSeparate(bs.opRGB, bs.opAlpha))
    + D.When(bs.colorWriteMask != cur.colorWriteMask, D.ColorMask(mask.0, mask.1, mask.2, mask.3))
  }

  /** Applies a blend state; the cache takes the request whatever it was. */
  function ApplyBlendState(r: Renderer, bs: BlendState): (o: Out)
    ensures o.r == r.(blend := bs)
    ensures o.calls == [] <==> bs == r.blend
    ensures |o.calls| <= 4
  {
    Out(r.(blend := bs), BlendCalls(r.blend, bs))
  }

  /** From a driver holding blend state `cur`, the calls leave it holding
      `bs` and change nothing else. */
  lemma BlendCallsEffect(cur: BlendState, bs: BlendState, d: D.Driver)
    requires BlendMirrors(cur, d.blendColor, d)
    ensures D.Exec(d, BlendCalls(cur, bs))
         == d.(enabled := d.enabled.Set(D.BlendCap, bs.blendEnabled),
               blendFactors := (bs.srcFactorRGB, bs.dstFactorRGB, bs.srcFactorAlpha, bs.dstFactorAlpha),
               blendOps := (bs.opRGB, bs.opAlpha), colorMask := D.ChannelFlags(bs.colorWriteMask))
  {
    var mask := D.ChannelFlags(bs.colorWriteMask);
    var f := (bs.srcFactorRGB, bs.dstFactorRGB, bs.srcFactorAlpha, bs.dstFactorAlpha);
    var o := (bs.opRGB, bs.opAlpha);
    var c1 := D.When(bs.blendEnabled != cur.blendEnabled, D.Toggle(D.BlendCap, bs.blendEnabled));
    var c2 := D.When(f != d.blendFactors, D.BlendFuncSeparate(f.0, f.1, f.2, f.3));
    var c3 := D.When(o != d.blendOps, D.BlendEquationSeparate(o.0, o.1));
    var c4 := D.When(bs.colorWriteMask != cur.colorWriteMask, D.ColorMask(mask.0, mask.1, mask.2, mask.3));
    var d1 := d.(enabled := d.enabled.Set(D.BlendCap, bs.blendEnabled));
    var d2 := d1.(blendFactors := f);
    var d3 := d2.(blendOps := o);
    var d4 := d3.(colorMask := mask);
    D.CapStep(d, bs.blendEnabled != cur.blendEnabled, D.BlendCap, bs.blendEnabled);
    D.BlendFuncStep(d1, f != d.blendFactors, f);
    D.BlendEquationStep(d2, o != d.blendOps, o);
    D.ColorMaskStep(d3, bs.colorWriteMask != cur.colorWriteMask, mask);
    D.ExecChain4(d, c1, c2, c3, c4, d1, d2, d3, d4);
    assert BlendCalls(cur, bs) == c1 + c2 + c3 + c4;
  }

  lemma BlendStateKeepsMirrors(r: Renderer, d: D.Driver, bs: BlendState)
    requires Mirrors(r, d)
    ensures var o := ApplyBlendState(r, bs); Mirrors(o.r, D.Exec(d, o.calls)) && SameOutside(d, D.Exec(d, o.calls))
  {
    BlendCallsEffect(r.blend, bs, d);
  }

  // ----------------------------------------------------------- rasterizer

  /** The calls that take the driver from rasterizer state `cur` to `rs`,
      in the order the source issues them. */
  function RasterizerCalls(cur: RasterizerState, rs: RasterizerState): seq<D.GlCall> {
    CullCalls(cur, rs) + SwitchCalls(cur, rs)
  }

  /** Applies a rasterizer state; the cache takes the request. */
  function ApplyRasterizerState(r: Renderer, rs: RasterizerState): (o: Out)
    ensures o.r == r.(rasterizer := rs)
    ensures o.calls == [] <==> rs == r.rasterizer
    ensures |o.calls| <= 6
  {
    Out(r.(rasterizer := rs), RasterizerCalls(r.rasterizer, rs))
  }

  /** The first three rasterizer calls: face culling and polygon offset. */
  function CullCalls(cur: RasterizerState, rs: RasterizerState): seq<D.GlCall> {
    D.When(rs.cullFaceEnabled != cur.cullFaceEnabled, D.Toggle(D.CullFaceCap, rs.cullFaceEnabled))
    + D.When(rs.cullFace != cur.cullFace, D.CullFace(rs.cullFace))
    + D.When(rs.depthOffsetEnabled != cur.depthOffsetEnabled, D.Toggle(D.PolygonOffsetFill, rs.depthOffsetEnabled))
  }

  /** The last three rasterizer calls: scissor test, dithering, multisampling. */
  function SwitchCalls(cur: RasterizerState, rs: RasterizerState): seq<D.GlCall> {
    D.When(rs.scissorTestEnabled != cur.scissorTestEnabled, D.Toggle(D.ScissorTest, rs.scissorTestEnabled))
    + D.When(rs.ditherEnabled != cur.ditherEnabled, D.Toggle(D.Dither, rs.ditherEnabled))
    + D.When(rs.multisampleEnabled != cur.multisampleEnabled, D.Toggle(D.Multisample, rs.multisampleEnabled))
  }

  lemma CullCallsEffect(cur: RasterizerState, rs: RasterizerState, d: D.Driver)
    requires RasterizerMirrors(cur, d)
    ensures D.Exec(d, CullCalls(cur, rs))
         == d.(enabled := d.enabled.(cullFace := rs.cullFaceEnabled, polygonOffsetFill := rs.depthOffsetEnabled),
               cullFace := rs.cullFace)
  {
    var c1 := D.When(rs.cullFaceEnabled != cur.cullFaceEnabled, D.Toggle(D.CullFaceCap, rs.cullFaceEnabled));
    var c2 := D.When(rs.cullFace != cur.cullFace, D.CullFace(rs.cullFace));
    var c3 := D.When(rs.depthOffsetEnabled != cur.depthOffsetEnabled, D.Toggle(D.PolygonOffsetFill, rs.depthOffsetEnabled));
    var d1 := d.(enabled := d.enabled.Set(D.CullFaceCap, rs.cullFaceEnabled));
    var d2 := d1.(cullFace := rs.cullFace);
    var d3 := d2.(enabled := d2.enabled.Set(D.PolygonOffsetFill, rs.depthOffsetEnabled));
    D.CapStep(d, c1 != [], D.CullFaceCap, rs.cullFaceEnabled);
    D.CullFaceStep(d1, c2 != [], rs.cullFace);
    D.CapStep(d2, c3 != [], D.PolygonOffsetFill, rs.depthOffsetEnabled);
    D.ExecChain3(d, c1, c2, c3, d1, d2, d3);
  }

  lemma SwitchCallsEffect(cur: RasterizerState, rs: RasterizerState, d: D.Driver)
    requires d.enabled.scissorTest == cur.scissorTestEnabled && d.enabled.dither == cur.ditherEnabled
    requires d.enabled.multisample == cur.multisampleEnabled
    ensures D.Exec(d, SwitchCalls(cur, rs))
         == d.(enabled := d.enabled.(scissorTest := rs.scissorTestEnabled, dither := rs.ditherEnabled,
                                     multisample := rs.multisampleEnabled))
  {
    var c1 := D.When(rs.scissorTestEnabled != cur.scissorTestEnabled, D.Toggle(D.ScissorTest, rs.scissorTestEnabled));
    var c2 := D.When(rs.ditherEnabled != cur.ditherEnabled, D.Toggle(D.Dither, rs.ditherEnabled));
    var c3 := D.When(rs.multisampleEnabled != cur.multisampleEnabled, D.Toggle(D.Multisample, rs.multisampleEnabled));
    var d1 := d.(enabled := d.enabled.Set(D.ScissorTest, rs.scissorTestEnabled));
    var d2 := d1.(enabled := d1.enabled.Set(D.Dither, rs.ditherEnabled));
    var d3 := d2.(enabled := d2.enabled.Set(D.Multisample, rs.multisampleEnabled));
    D.CapStep(d, c1 != [], D.ScissorTest, rs.scissorTestEnabled);
    D.CapStep(d1, c2 != [], D.Dither, rs.ditherEnabled);
    D.CapStep(d2, c3 != [], D.Multisample, rs.multisampleEnabled);
    D.ExecChain3(d, c1, c2, c3, d1, d2, d3);
  }

  lemma RasterizerCallsEffect(cur: RasterizerState, rs: RasterizerState, d: D.Driver)
    requires RasterizerMirrors(cur, d)
    ensures D.Exec(d, RasterizerCalls(cur, rs))
         == d.(enabled := d.enabled.(cullFace := rs.cullFaceEnabled, polygonOffsetFill := rs.depthOffsetEnabled,
                                     scissorTest := rs.scissorTestEnabled, dither := rs.ditherEnabled,
                                     multisample := rs.multisampleEnabled),
               cullFace := rs.cullFace)
  {
    var d1 := D.Exec(d, CullCalls(cur, rs));
    CullCallsEffect(cur, rs, d);
    SwitchCallsEffect(cur, rs, d1);
    D.ExecChain2(d, CullCalls(cur, rs), SwitchCalls(cur, rs), d1, D.Exec(d1, SwitchCalls(cur, rs)));
  }

  lemma RasterizerStateKeepsMirrors(r: Renderer, d: D.Driver, rs: RasterizerState)
    requires Mirrors(r, d)
    ensures var o := ApplyRasterizerState(r, rs); Mirrors(o.r, D.Exec(d, o.calls)) && SameOutside(d, D.Exec(d, o.calls))
  {
    RasterizerCallsEffect(r.rasterizer, rs, d);
  }

  // -------------------------------------------------------- depth-stencil

  /** The face of a depth-stencil state that a separate stencil call for
      `face` takes its settings from. */
  function FaceState(s: DepthStencilState, face: Face): StencilState {
    if face == Front then s.front else s.back
  }

  /** The compare-function call for one face: when the face's function or
      the shared reference value or read mask differ. */
  function StencilFuncCall(s: DepthStencilState, cur: DepthStencilState, face: Face): seq<D.GlCall> {
    D.When(FaceState(s, face).cmpFunc != FaceState(cur, face).cmpFunc
           || s.common.stencilReadMask != cur.common.stencilReadMask
           || s.common.stencilRef != cur.common.stencilRef,
           D.StencilFuncSeparate(face, FaceState(s, face).cmpFunc, s.common.stencilRef, s.common.stencilReadMask))
  }

  /** The operations call for one face: when one of its operations differs. */
  function StencilOpCall(s: DepthStencilState, cur: DepthStencilState, face: Face): seq<D.GlCall> {
    var st := FaceState(s, face);
    var ct := FaceState(cur, face);
    D.When(st.failOp != ct.failOp || st.depthFailOp != ct.depthFailOp || st.passOp != ct.passOp,
           D.StencilOpSeparate(face, st.failOp, st.depthFailOp, st.passOp))
  }

  /** The write-mask call for one face: when the shared write mask differs. */
  function StencilMaskCall(s: DepthStencilState, cur: DepthStencilState, face: Face): seq<D.GlCall> {
    D.When(s.common.stencilWriteMask != cur.common.stencilWriteMask,
           D.StencilMaskSeparate(face, s.common.stencilWriteMask))
  }

  /** Applies the stencil settings of one face. Every call addresses `face`. */
  function ApplyStencilState(s: DepthStencilState, cur: DepthStencilState, face: Face): (calls: seq<D.GlCall>)
    ensures calls == [] <==> FaceSettings(s, face) == FaceSettings(cur, face)
    ensures forall c :: c in calls ==>
      (c.StencilFuncSeparate? || c.StencilOpSeparate? || c.StencilMaskSeparate?) && c.stencilFace == face
  {
    StencilFuncCall(s, cur, face) + StencilOpCall(s, cur, face) + StencilMaskCall(s, cur, face)
  }

  /** The face settings after each of the three calls. */
  function AfterFunc(s: DepthStencilState, cur: DepthStencilState, face: Face): D.StencilFace {
    FaceSettings(cur, face).(func := FaceState(s, face).cmpFunc, ref := s.common.stencilRef,
                             readMask := s.common.stencilReadMask)
  }

  function AfterOp(s: DepthStencilState, cur: DepthStencilState, face: Face): D.StencilFace {
    var st := FaceState(s, face);
    AfterFunc(s, cur, face).(sfail := st.failOp, dpfail := st.depthFailOp, dppass := st.passOp)
  }

  lemma StencilFuncEffect(s: DepthStencilState, cur: DepthStencilState, face: Face, d: D.Driver)
    requires d.Stencil(face) == FaceSettings(cur, face)
    ensures D.Exec(d, StencilFuncCall(s, cur, face)) == d.WithStencil(face, AfterFunc(s, cur, face))
  {
    D.StencilFuncStep(d, StencilFuncCall(s, cur, face) != [], face, FaceState(s, face).cmpFunc,
                      s.common.stencilRef, s.common.stencilReadMask);
  }

  lemma StencilOpEffect(s: DepthStencilState, cur: DepthStencilState, face: Face, d: D.Driver)
    requires d.Stencil(face) == AfterFunc(s, cur, face)
    ensures D.Exec(d, StencilOpCall(s, cur, face)) == d.WithStencil(face, AfterOp(s, cur, face))
  {
    var st := FaceState(s, face);
    D.StencilOpStep(d, StencilOpCall(s, cur, face) != [], face, st.failOp, st.depthFailOp, st.passOp);
  }

  lemma StencilMaskEffect(s: DepthStencilState, cur: DepthStencilState, face: Face, d: D.Driver)
    requires d.Stencil(face) == AfterOp(s, cur, face)
    ensures D.Exec(d, StencilMaskCall(s, cur, face)) == d.WithStencil(face, FaceSettings(s, face))
  {
    D.StencilMaskStep(d, StencilMaskCall(s, cur, face) != [], face, s.common.stencilWriteMask);
  }

  /** Applied to a driver whose face holds the current settings, the face
      ends up with the requested settings and nothing else changes. */
  lemma StencilStateSetsFace(s: DepthStencilState, cur: DepthStencilState, face: Face, d: D.Driver)
    requires d.Stencil(face) == FaceSettings(cur, face)
    ensures D.Exec(d, ApplyStencilState(s, cur, face)) == d.WithStencil(face, FaceSettings(s, face))
  {
    var d1 := d.WithStencil(face, AfterFunc(s, cur, face));
    var d2 := d.WithStencil(face, AfterOp(s, cur, face));
    var d3 := d.WithStencil(face, FaceSettings(s, face));
    StencilFuncEffect(s, cur, face, d);
    D.WithStencilTwice(d, face, AfterFunc(s, cur, face), AfterOp(s, cur, face));
    StencilOpEffect(s, cur, face, d1);
    D.WithStencilTwice(d, face, AfterOp(s, cur, face), FaceSettings(s, face));
    StencilMaskEffect(s, cur, face, d2);
    D.ExecChain3(d, StencilFuncCall(s, cur, face), StencilOpCall(s, cur, face), StencilMaskCall(s, cur, face), d1, d2, d3);
  }

  /** The calls for the part of the depth-stencil state under its common
      hash: only the depth function, the depth write flag and the stencil
      test switch are looked at. */
  function CommonCalls(cur: DepthStencilCommon, s: DepthStencilCommon): seq<D.GlCall> {
    D.When(s.depthCmpFunc != cur.depthCmpFunc, D.DepthFunc(s.depthCmpFunc))
    + D.When(s.depthWriteEnabled != cur.depthWriteEnabled, D.DepthMask(s.depthWriteEnabled))
    + D.When(s.stencilEnabled != cur.stencilEnabled, D.Toggle(D.StencilTest, s.stencilEnabled))
  }

  lemma CommonCallsEffect(cur: DepthStencilCommon, s: DepthStencilCommon, d: D.Driver)
    requires d.depthFunc == cur.depthCmpFunc && d.depthMask == cur.depthWriteEnabled
    requires d.enabled.stencilTest == cur.stencilEnabled
    ensures D.Exec(d, CommonCalls(cur, s))
         == d.(depthFunc := s.depthCmpFunc, depthMask := s.depthWriteEnabled,
               enabled := d.enabled.Set(D.StencilTest, s.stencilEnabled))
  {
    var c1 := D.When(s.depthCmpFunc != cur.depthCmpFunc, D.DepthFunc(s.depthCmpFunc));
    var c2 := D.When(s.depthWriteEnabled != cur.depthWriteEnabled, D.DepthMask(s.depthWriteEnabled));
    var c3 := D.When(s.stencilEnabled != cur.stencilEnabled, D.Toggle(D.StencilTest, s.stencilEnabled));
    var d1 := d.(depthFunc := s.depthCmpFunc);
    var d2 := d1.(depthMask := s.depthWriteEnabled);
    var d3 := d2.(enabled := d2.enabled.Set(D.StencilTest, s.stencilEnabled));
    D.DepthFuncStep(d, c1 != [], s.depthCmpFunc);
    D.DepthMaskStep(d1, c2 != [], s.depthWriteEnabled);
    D.CapStep(d2, c3 != [], D.StencilTest, s.stencilEnabled);
    D.ExecChain3(d, c1, c2, c3, d1, d2, d3);
  }

  /** The calls for one face, made only when `apply` holds. */
  function FaceCalls(s: DepthStencilState, cur: DepthStencilState, face: Face, apply: bool): seq<D.GlCall> {
    if apply then ApplyStencilState(s, cur, face) else []
  }

  lemma FaceCallsEffect(s: DepthStencilState, cur: DepthStencilState, face: Face, apply: bool, d: D.Driver)
    requires d.Stencil(face) == FaceSettings(cur, face)
    requires !apply ==> FaceSettings(s, face) == FaceSettings(cur, face)
    ensures D.Exec(d, FaceCalls(s, cur, face, apply)) == d.WithStencil(face, FaceSettings(s, face))
  {
    if apply {
      StencilStateSetsFace(s, cur, face, d);
    } else {
      assert d.WithStencil(face, FaceSettings(s, face)) == d;
    }
  }

  /** The calls for the common part, made only when it differs. */
  function CommonPartCalls(cur: DepthStencilState, s: DepthStencilState): seq<D.GlCall> {
    if cur.common != s.common then CommonCalls(cur.common, s.common) else []
  }

  lemma CommonPartEffect(cur: DepthStencilState, s: DepthStencilState, d: D.Driver)
    requires DepthStencilMirrors(cur, d)
    ensures D.Exec(d, CommonPartCalls(cur, s))
         == d.(depthFunc := s.common.depthCmpFunc, depthMask := s.common.depthWriteEnabled,
               enabled := d.enabled.Set(D.StencilTest, s.common.stencilEnabled))
  {
    if cur.common != s.common {
      CommonCallsEffect(cur.common, s.common, d);
    } else {
      assert d.enabled.Set(D.StencilTest, s.common.stencilEnabled) == d.enabled;
    }
  }

  /** Applies a depth-stencil state as the source does: the common part
      when its hash differs, and a face only when that face's own hash
      differs. */
  function ApplyDepthStencilStateAsWritten(r: Renderer, s: DepthStencilState): (o: Out)
    ensures o.r == r.(depthStencil := s)
  {
    var cur := r.depthStencil;
    var calls := CommonPartCalls(cur, s) + FaceCalls(s, cur, Front, cur.front != s.front)
                 + FaceCalls(s, cur, Back, cur.back != s.back);
    var changed := cur.common != s.common || cur.front != s.front || cur.back != s.back;
    Out(if changed then r.(depthStencil := s) else r, calls)
  }

  /** A request that differs from the cache only in the stencil reference
      value reaches the cache but not the driver: no call is made, and the
      cache stops mirroring the driver. */
  lemma StencilRefChangeIsLost(r: Renderer, d: D.Driver)
    requires Mirrors(r, d)
    ensures var cur := r.depthStencil;
      var s := cur.(common := cur.common.(stencilRef := cur.common.stencilRef + 1));
      var o := ApplyDepthStencilStateAsWritten(r, s);
      && o.calls == []
      && o.r.depthStencil == s
      && !Mirrors(o.r, D.Exec(d, o.calls))
  {
    var cur := r.depthStencil;
    var s := cur.(common := cur.common.(stencilRef := cur.common.stencilRef + 1));
    assert CommonCalls(cur.common, s.common) == [];
    assert FaceSettings(s, Front).ref != d.front.ref;
  }

  /** The stencil reference value, read mask or write mask shared by both
      faces differs. */
  predicate SharedStencilChanged(cur: DepthStencilCommon, s: DepthStencilCommon) {
    cur.stencilRef != s.stencilRef || cur.stencilReadMask != s.stencilReadMask || cur.stencilWriteMask != s.stencilWriteMask
  }

  /** The calls of the corrected applier: a face is also reapplied when a
      shared stencil value changed. */
  function DepthStencilCalls(cur: DepthStencilState, s: DepthStencilState): seq<D.GlCall> {
    var shared := SharedStencilChanged(cur.common, s.common);
    CommonPartCalls(cur, s) + FaceCalls(s, cur, Front, cur.front != s.front || shared)
    + FaceCalls(s, cur, Back, cur.back != s.back || shared)
  }

  /** Applies a depth-stencil state, also reapplying both faces when a
      shared stencil value changed. */
  function ApplyDepthStencilState(r: Renderer, s: DepthStencilState): (o: Out)
    ensures o.r == r.(depthStencil := s)
    ensures o.calls == [] <==> s == r.depthStencil
  {
    var cur := r.depthStencil;
    var changed := cur.common != s.common || cur.front != s.front || cur.back != s.back;
    Out(if changed then r.(depthStencil := s) else r, DepthStencilCalls(cur, s))
  }

  /** Where the two readings meet: when no shared stencil value changes,
      the applier as written sends the same calls as the corrected one. */
  lemma DepthStencilReadingsAgree(r: Renderer, s: DepthStencilState)
    requires !SharedStencilChanged(r.depthStencil.common, s.common)
    ensures ApplyDepthStencilStateAsWritten(r, s) == ApplyDepthStencilState(r, s)
  {
  }

  /** The depth-stencil applier of the given reading. */
  function DepthStencilApplier(r: Renderer, s: DepthStencilState, v: Variant): (o: Out)
    ensures o.r == r.(depthStencil := s)
    ensures s == r.depthStencil ==> o.calls == []
    ensures v == Corrected ==> (o.calls == [] <==> s == r.depthStencil)
  {
    match v
    case AsWritten => ApplyDepthStencilStateAsWritten(r, s)
    case Corrected => ApplyDepthStencilState(r, s)
  }

  lemma DepthStencilCallsEffect(cur: DepthStencilState, s: DepthStencilState, d: D.Driver)
    requires DepthStencilMirrors(cur, d)
    ensures D.Exec(d, DepthStencilCalls(cur, s))
         == d.(depthFunc := s.common.depthCmpFunc, depthMask := s.common.depthWriteEnabled,
               enabled := d.enabled.Set(D.StencilTest, s.common.stencilEnabled),
               front := FaceSettings(s, Front), back := FaceSettings(s, Back))
  {
    var shared := SharedStencilChanged(cur.common, s.common);
    var d1 := d.(depthFunc := s.common.depthCmpFunc, depthMask := s.common.depthWriteEnabled,
                 enabled := d.enabled.Set(D.StencilTest, s.common.stencilEnabled));
    var d2 := d1.WithStencil(Front, FaceSettings(s, Front));
    var d3 := d2.WithStencil(Back, FaceSettings(s, Back));
    CommonPartEffect(cur, s, d);
    FaceCallsEffect(s, cur, Front, cur.front != s.front || shared, d1);
    FaceCallsEffect(s, cur, Back, cur.back != s.back || shared, d2);
    D.ExecChain3(d, CommonPartCalls(cur, s), FaceCalls(s, cur, Front, cur.front != s.front || shared),
                 FaceCalls(s, cur, Back, cur.back != s.back || shared), d1, d2, d3);
  }

  lemma DepthStencilStateKeepsMirrors(r: Renderer, d: D.Driver, s: DepthStencilState)
    requires Mirrors(r, d)
    ensures var o := ApplyDepthStencilState(r, s); Mirrors(o.r, D.Exec(d, o.calls)) && SameOutside(d, D.Exec(d, o.calls))
  {
    DepthStencilCallsEffect(r.depthStencil, s, d);
  }

  // ---------------------------------------------------------------- clear

  /** Which buffers a clear touches. */
  datatype ClearTarget = ClearTarget(color: bool, depth: bool, stencil: bool)

  /** The colour part of a clear: the clear colour, and full colour writes. */
  function ClearColorPart(r: Renderer, t: ClearTarget, color: Color): (o: Out)
    ensures t.color ==> o.r == r.(blend := r.blend.(colorWriteMask := ChannelRGBA))
    ensures !t.color ==> o == Out(r, [])
  {
    if !t.color then Out(r, [])
    else
      Out(r.(blend := r.blend.(colorWriteMask := ChannelRGBA)),
          [D.ClearColor(color)] + D.When(r.blend.colorWriteMask != ChannelRGBA, D.ColorMask(true, true, true, true)))
  }

  /** The depth part of a clear: the clear depth, and depth writes on. */
  function ClearDepthPart(r: Renderer, t: ClearTarget, depth: real): (o: Out)
    ensures t.depth ==> o.r == r.(depthStencil := r.depthStencil.(common := r.depthStencil.common.(depthWriteEnabled := true)))
    ensures !t.depth ==> o == Out(r, [])
  {
    if !t.depth then Out(r, [])
    else
      var ds := r.depthStencil;
      Out(r.(depthStencil := ds.(common := ds.common.(depthWriteEnabled := true))),
          [D.ClearDepth(depth)] + D.When(!ds.common.depthWriteEnabled, D.DepthMask(true)))
  }

  /** The stencil part of a clear: the clear value, and the full write mask
      for both faces. */
  function ClearStencilPart(r: Renderer, t: ClearTarget, stencil: Byte): (o: Out)
    ensures t.stencil ==> o.r == r.(depthStencil := r.depthStencil.(common := r.depthStencil.common.(stencilWriteMask := FullStencilMask)))
    ensures !t.stencil ==> o == Out(r, [])
  {
    if !t.stencil then Out(r, [])
    else
      var ds := r.depthStencil;
      Out(r.(depthStencil := ds.(common := ds.common.(stencilWriteMask := FullStencilMask))),
          [D.ClearStencil(stencil)] + D.When(ds.common.stencilWriteMask != FullStencilMask, D.StencilMask(FullStencilMask)))
  }

  /** Clears the current render target. Writes to each cleared buffer are
      switched fully on first, in the cache and the driver, and the clear
      itself comes last. */
  function Clear(r: Renderer, t: ClearTarget, color: Color, depth: real, stencil: Byte): (o: Out)
    requires r.rtValid
    requires t.color || t.depth || t.stencil
    ensures |o.calls| > 0 && o.calls[|o.calls| - 1] == D.ClearBuffers(t.color, t.depth, t.stencil)
    ensures o.r.blend == if t.color then r.blend.(colorWriteMask := ChannelRGBA) else r.blend
    ensures o.r.depthStencil.common == r.depthStencil.common.(
      depthWriteEnabled := t.depth || r.depthStencil.common.depthWriteEnabled,
      stencilWriteMask := if t.stencil then FullStencilMask else r.depthStencil.common.stencilWriteMask)
    ensures o.r.depthStencil.front == r.depthStencil.front && o.r.depthStencil.back == r.depthStencil.back
    ensures o.r == r.(blend := o.r.blend, depthStencil := o.r.depthStencil)
  {
    var o1 := ClearColorPart(r, t, color);
    var o2 := ClearDepthPart(o1.r, t, depth);
    var o3 := ClearStencilPart(o2.r, t, stencil);
    Out(o3.r, o1.calls + o2.calls + o3.calls + [D.ClearBuffers(t.color, t.depth, t.stencil)])
  }

  lemma ClearColorPartKeepsMirrors(r: Renderer, d: D.Driver, t: ClearTarget, color: Color)
    requires Mirrors(r, d)
    ensures var o := ClearColorPart(r, t, color); Mirrors(o.r, D.Exec(d, o.calls)) && SameOutside(d, D.Exec(d, o.calls))
  {
    if t.color {
      var c2 := D.When(r.blend.colorWriteMask != ChannelRGBA, D.ColorMask(true, true, true, true));
      assert D.ChannelFlags(ChannelRGBA) == (true, true, true, true);
      assert D.Exec(d, [D.ClearColor(color)]) == d by {
        D.ExecInert(d, [D.ClearColor(color)]);
      }
      D.ColorMaskStep(d, r.blend.colorWriteMask != ChannelRGBA, (true, true, true, true));
      D.ExecChain2(d, [D.ClearColor(color)], c2, d, d.(colorMask := (true, true, true, true)));
    }
  }

  lemma ClearDepthPartKeepsMirrors(r: Renderer, d: D.Driver, t: ClearTarget, depth: real)
    requires Mirrors(r, d)
    ensures var o := ClearDepthPart(r, t, depth); Mirrors(o.r, D.Exec(d, o.calls)) && SameOutside(d, D.Exec(d, o.calls))
  {
    if t.depth {
      var c2 := D.When(!r.depthStencil.common.depthWriteEnabled, D.DepthMask(true));
      assert D.Exec(d, [D.ClearDepth(depth)]) == d by {
        D.ExecInert(d, [D.ClearDepth(depth)]);
      }
      D.DepthMaskStep(d, !r.depthStencil.common.depthWriteEnabled, true);
      D.ExecChain2(d, [D.ClearDepth(depth)], c2, d, d.(depthMask := true));
    }
  }

  lemma ClearStencilPartKeepsMirrors(r: Renderer, d: D.Driver, t: ClearTarget, stencil: Byte)
    requires Mirrors(r, d)
    ensures var o := ClearStencilPart(r, t, stencil); Mirrors(o.r, D.Exec(d, o.calls)) && SameOutside(d, D.Exec(d, o.calls))
  {
    if t.stencil {
      var wm := r.depthStencil.common.stencilWriteMask;
      var c2 := D.When(wm != FullStencilMask, D.StencilMask(FullStencilMask));
      assert D.Exec(d, [D.ClearStencil(stencil)]) == d by {
        D.ExecInert(d, [D.ClearStencil(stencil)]);
      }
      D.StencilMaskBothStep(d, wm != FullStencilMask, FullStencilMask);
      D.ExecChain2(d, [D.ClearStencil(stencil)], c2, d,
                   d.(front := d.front.(writeMask := FullStencilMask), back := d.back.(writeMask := FullStencilMask)));
    }
  }

  /** A clear keeps the cache a mirror of the driver. */
  lemma ClearKeepsMirrors(r: Renderer, d: D.Driver, t: ClearTarget, color: Color, depth: real, stencil: Byte)
    requires Mirrors(r, d) && r.rtValid && (t.color || t.depth || t.stencil)
    ensures var o := Clear(r, t, color, depth, stencil); Mirrors(o.r, D.Exec(d, o.calls)) && SameOutside(d, D.Exec(d, o.calls))
  {
    var o1 := ClearColorPart(r, t, color);
    var o2 := ClearDepthPart(o1.r, t, depth);
    var o3 := ClearStencilPart(o2.r, t, stencil);
    var last := [D.ClearBuffers(t.color, t.depth, t.stencil)];
    ClearColorPartKeepsMirrors(r, d, t, color);
    var d1 := D.Exec(d, o1.calls);
    ClearDepthPartKeepsMirrors(o1.r, d1, t, depth);
    var d2 := D.Exec(d1, o2.calls);
    ClearStencilPartKeepsMirrors(o2.r, d2, t, stencil);
    var d3 := D.Exec(d2, o3.calls);
    D.ExecInert(d3, last);
    D.ExecChain4(d, o1.calls, o2.calls, o3.calls, last, d1, d2, d3, d3);
  }
}
