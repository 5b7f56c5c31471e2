/** The renderer's vertex attribute setup: binding a draw state's index
    buffer and walking its attribute slots, re-specifying a slot only when
    its buffer or its description changed since the last draw state. */
module GlMesh {
  import opened GlTypes
  import D = GlDriver
  import opened GlCache

  /** When an enabled slot's instancing divisor is sent to the driver.
      `AsWritten` compares with the cached divisor alone, although a slot
      disabled in between keeps its old divisor in the driver while the
      cache takes the disabled description's; `Corrected` also sends it
      when the cached attribute was disabled. */
  predicate DivisorCall(rule: Variant, cur: VertexAttrib, attr: VertexAttrib) {
    match rule
    case AsWritten => cur.divisor != attr.divisor
    case Corrected => !cur.enabled || cur.divisor != attr.divisor
  }

  /** Every slot's description names that slot's GL attribute index, as the
      draw-state factory (not part of this model) sets them up. */
  predicate SlotsIndexed(ds: DrawState) {
    |ds.glAttrs| == NumVertexAttrs && forall k :: 0 <= k < NumVertexAttrs ==> ds.glAttrs[k].index == k
  }

  /** The calls that set up an enabled slot: bind its buffer and point the
      attribute at it, then enable the array on a transition and set the
      divisor when the rule asks for it. */
  function EnableCalls(r: Renderer, cur: VertexAttrib, attr: VertexAttrib, glVB: nat, rule: Variant): seq<D.GlCall> {
    PointerCalls(r, attr, glVB) + ArrayCalls(cur, attr, rule)
  }

  function PointerCalls(r: Renderer, attr: VertexAttrib, glVB: nat): seq<D.GlCall> {
    BindVertexBuffer(r, glVB).calls + [D.VertexAttribPointer(attr.index, attr.format)]
  }

  function ArrayCalls(cur: VertexAttrib, attr: VertexAttrib, rule: Variant): seq<D.GlCall> {
    D.When(!cur.enabled, D.EnableVertexAttribArray(attr.index))
    + D.When(DivisorCall(rule, cur, attr), D.VertexAttribDivisor(attr.index, attr.divisor))
  }

  /** One iteration of the attribute loop, for slot `i`. */
  function SlotStep(r: Renderer, ds: DrawState, i: nat, rule: Variant): (o: Out)
    requires Wf(r) && DrawStateWf(ds) && i < NumVertexAttrs
    ensures Wf(o.r) && o.r.glAttrs == r.glAttrs[i := ds.glAttrs[i]]
    ensures o.r.glAttrVBs == if ds.glAttrs[i].enabled then r.glAttrVBs[i := AttribBuffer(ds, i)] else r.glAttrVBs
    ensures o.r.(glAttrs := r.glAttrs, glAttrVBs := r.glAttrVBs, vertexBuffer := r.vertexBuffer) == r
    ensures ds.glAttrs[i] == r.glAttrs[i] && (ds.glAttrs[i].enabled ==> AttribBuffer(ds, i) == r.glAttrVBs[i]) ==> o == Out(r, [])
    ensures D.EnableVertexAttribArray(ds.glAttrs[i].index) in o.calls
        <==> (AttribBuffer(ds, i) != r.glAttrVBs[i] || ds.glAttrs[i] != r.glAttrs[i]) && ds.glAttrs[i].enabled && !r.glAttrs[i].enabled
    ensures D.DisableVertexAttribArray(ds.glAttrs[i].index) in o.calls
        <==> (AttribBuffer(ds, i) != r.glAttrVBs[i] || ds.glAttrs[i] != r.glAttrs[i]) && !ds.glAttrs[i].enabled && r.glAttrs[i].enabled
  {
    var attr := ds.glAttrs[i];
    var cur := r.glAttrs[i];
    var glVB := AttribBuffer(ds, i);
    if glVB == r.glAttrVBs[i] && attr == cur then Out(r, [])
    else if attr.enabled then
      var calls := EnableCalls(r, cur, attr, glVB, rule);
      assert !cur.enabled ==> calls[|PointerCalls(r, attr, glVB)|] == D.EnableVertexAttribArray(attr.index);
      Out(r.(vertexBuffer := glVB, glAttrs := r.glAttrs[i := attr], glAttrVBs := r.glAttrVBs[i := glVB]), calls)
    else
      assert attr == cur ==> r.glAttrs[i := attr] == r.glAttrs;
      Out(r.(glAttrs := r.glAttrs[i := attr]), D.When(cur.enabled, D.DisableVertexAttribArray(attr.index)))
  }

  /** The attribute loop from slot `i` on. */
  function AttribLoop(r: Renderer, ds: DrawState, i: nat, rule: Variant): (o: Out)
    requires Wf(r) && DrawStateWf(ds) && i <= NumVertexAttrs
    ensures Wf(o.r)
    ensures forall k :: i <= k < NumVertexAttrs ==> o.r.glAttrs[k] == ds.glAttrs[k]
    ensures forall k :: i <= k < NumVertexAttrs ==>
      o.r.glAttrVBs[k] == if ds.glAttrs[k].enabled then AttribBuffer(ds, k) else r.glAttrVBs[k]
    ensures forall k :: 0 <= k < i ==> o.r.glAttrs[k] == r.glAttrs[k] && o.r.glAttrVBs[k] == r.glAttrVBs[k]
    ensures o.r.(glAttrs := r.glAttrs, glAttrVBs := r.glAttrVBs, vertexBuffer := r.vertexBuffer) == r
    decreases NumVertexAttrs - i
  {
    if i == NumVertexAttrs then Out(r, [])
    else
      var s := SlotStep(r, ds, i, rule);
      var rest := AttribLoop(s.r, ds, i + 1, rule);
      Out(rest.r, s.calls + rest.calls)
  }

  /** Applies a draw state's meshes: the first mesh's index buffer, then
      every attribute slot. */
  function ApplyMeshStateWith(r: Renderer, ds: DrawState, rule: Variant): (o: Out)
    requires Wf(r) && DrawStateWf(ds)
    ensures Wf(o.r) && o.r.glAttrs == ds.glAttrs && o.r.indexBuffer == ds.meshes[0].glIndexBuffer
    ensures forall k :: 0 <= k < NumVertexAttrs ==>
      o.r.glAttrVBs[k] == if ds.glAttrs[k].enabled then AttribBuffer(ds, k) else r.glAttrVBs[k]
    ensures o.r.(glAttrs := r.glAttrs, glAttrVBs := r.glAttrVBs, vertexBuffer := r.vertexBuffer, indexBuffer := r.indexBuffer) == r
  {
    var b := BindIndexBuffer(r, ds.meshes[0].glIndexBuffer);
    var l := AttribLoop(b.r, ds, 0, rule);
    Out(l.r, b.calls + l.calls)
  }

  /** The renderer's mesh-state step as written. */
  function ApplyMeshStateAsWritten(r: Renderer, ds: DrawState): (o: Out)
    requires Wf(r) && DrawStateWf(ds)
    ensures o.r.glAttrs == ds.glAttrs && o.r.indexBuffer == ds.meshes[0].glIndexBuffer
  {
    ApplyMeshStateWith(r, ds, AsWritten)
  }

  /** The mesh-state step with the divisor re-sent after a disabled slot. */
  function ApplyMeshState(r: Renderer, ds: DrawState): (o: Out)
    requires Wf(r) && DrawStateWf(ds)
    ensures o.r.glAttrs == ds.glAttrs && o.r.indexBuffer == ds.meshes[0].glIndexBuffer
  {
    ApplyMeshStateWith(r, ds, Corrected)
  }

  /** Where the two readings meet: when the divisor tests agree on every
      slot from `i` on, so does the rest of the attribute loop. */
  lemma {:induction false} AttribLoopReadingsAgree(r: Renderer, ds: DrawState, i: nat)
    requires Wf(r) && DrawStateWf(ds) && i <= NumVertexAttrs
    requires forall k :: i <= k < NumVertexAttrs ==>
      DivisorCall(AsWritten, r.glAttrs[k], ds.glAttrs[k]) == DivisorCall(Corrected, r.glAttrs[k], ds.glAttrs[k])
    ensures AttribLoop(r, ds, i, AsWritten) == AttribLoop(r, ds, i, Corrected)
    decreases NumVertexAttrs - i
  {
    if i < NumVertexAttrs {
      var s := SlotStep(r, ds, i, Corrected);
      assert SlotStep(r, ds, i, AsWritten) == s;
      AttribLoopReadingsAgree(s.r, ds, i + 1);
    }
  }

  /** The mesh-state step as written sends the corrected step's calls
      unless some slot is cached disabled and described enabled with the
      divisor it had. */
  lemma MeshStateReadingsAgree(r: Renderer, ds: DrawState)
    requires Wf(r) && DrawStateWf(ds)
    requires forall k :: 0 <= k < NumVertexAttrs ==>
      DivisorCall(AsWritten, r.glAttrs[k], ds.glAttrs[k]) == DivisorCall(Corrected, r.glAttrs[k], ds.glAttrs[k])
    ensures ApplyMeshStateAsWritten(r, ds) == ApplyMeshState(r, ds)
  {
    var b := BindIndexBuffer(r, ds.meshes[0].glIndexBuffer);
    AttribLoopReadingsAgree(b.r, ds, 0);
  }

  /** The driver effect of binding a slot's buffer and pointing its
      attribute at it, when the bound buffer was the cached one. */
  lemma PointerCallsEffect(r: Renderer, d: D.Driver, attr: VertexAttrib, glVB: nat)
    requires d.arrayBuffer == r.vertexBuffer
    ensures var d' := D.Exec(d, PointerCalls(r, attr, glVB));
      D.AttribSet(d, d', attr.index, d.Attrib(attr.index).(buffer := glVB, format := attr.format)) && d'.arrayBuffer == glVB
  {
    var b := BindVertexBuffer(r, glVB);
    var d1 := D.Exec(d, b.calls);
    if b.calls != [] {
      D.ExecOne(d, D.BindBuffer(D.ArrayBuffer, glVB));
    }
    D.AttribPointerStep(d1, attr.index, attr.format);
    D.ExecAppend(d, b.calls, [D.VertexAttribPointer(attr.index, attr.format)]);
  }

  /** The driver effect of enabling a slot's array and setting its
      divisor: enabled afterwards, given the cache knew whether it was, and
      with the described divisor if the rule sends it. */
  lemma ArrayCallsEffect(d: D.Driver, cur: VertexAttrib, attr: VertexAttrib, rule: Variant)
    requires cur.enabled ==> d.Attrib(attr.index).enabled
    ensures var d' := D.Exec(d, ArrayCalls(cur, attr, rule)); var a := d.Attrib(attr.index);
      D.AttribSet(d, d', attr.index, a.(enabled := true, divisor := if DivisorCall(rule, cur, attr) then attr.divisor else a.divisor))
      && d'.arrayBuffer == d.arrayBuffer
  {
    var e := D.When(!cur.enabled, D.EnableVertexAttribArray(attr.index));
    var d1 := D.Exec(d, e);
    D.AttribEnableStep(d, !cur.enabled, attr.index, true);
    D.AttribDivisorStep(d1, DivisorCall(rule, cur, attr), attr.index, attr.divisor);
    D.ExecAppend(d, e, D.When(DivisorCall(rule, cur, attr), D.VertexAttribDivisor(attr.index, attr.divisor)));
  }

  /** The driver effect of an enabled slot's calls: its buffer bound and
      its attribute array enabled, pointing at that buffer with the
      described format; the divisor is the described one if the rule sends
      it and otherwise whatever the array had. */
  lemma EnableCallsEffect(r: Renderer, d: D.Driver, ds: DrawState, i: nat, rule: Variant)
    requires Wf(r) && DrawStateWf(ds) && i < NumVertexAttrs && d.arrayBuffer == r.vertexBuffer
    requires AttribMirrorsAt(r.glAttrs[i], r.glAttrVBs[i], d, i) && ds.glAttrs[i].index == i
    ensures var d' := D.Exec(d, EnableCalls(r, r.glAttrs[i], ds.glAttrs[i], AttribBuffer(ds, i), rule));
      && d'.(attribs := d.attribs, arrayBuffer := d.arrayBuffer) == d
      && d'.arrayBuffer == AttribBuffer(ds, i)
      && d'.Attrib(i).enabled && d'.Attrib(i).buffer == AttribBuffer(ds, i) && d'.Attrib(i).format == ds.glAttrs[i].format
      && d'.Attrib(i).divisor == (if DivisorCall(rule, r.glAttrs[i], ds.glAttrs[i]) then ds.glAttrs[i].divisor else d.Attrib(i).divisor)
      && forall k :: k != i ==> d'.Attrib(k) == d.Attrib(k)
  {
    var attr := ds.glAttrs[i];
    var cur := r.glAttrs[i];
    var glVB := AttribBuffer(ds, i);
    var p := PointerCalls(r, attr, glVB);
    PointerCallsEffect(r, d, attr, glVB);
    var d1 := D.Exec(d, p);
    ArrayCallsEffect(d1, cur, attr, rule);
    D.ExecAppend(d, p, ArrayCalls(cur, attr, rule));
  }

  /** One corrected slot step keeps the cache a mirror of the driver,
      attribute arrays included, and leaves the framebuffer alone. */
  lemma SlotStepKeepsMirrors(r: Renderer, d: D.Driver, ds: DrawState, i: nat)
    requires Mirrors(r, d) && AttribMirrors(r, d) && DrawStateWf(ds) && i < NumVertexAttrs
    requires ds.glAttrs[i].index == i
    ensures var o := SlotStep(r, ds, i, Corrected); var d' := D.Exec(d, o.calls);
      Mirrors(o.r, d') && AttribMirrors(o.r, d') && d'.framebuffer == d.framebuffer
  {
    var attr := ds.glAttrs[i];
    var cur := r.glAttrs[i];
    var glVB := AttribBuffer(ds, i);
    var o := SlotStep(r, ds, i, Corrected);
    var d' := D.Exec(d, o.calls);
    assert AttribMirrorsAt(cur, r.glAttrVBs[i], d, i);
    if glVB == r.glAttrVBs[i] && attr == cur {
    } else {
      if attr.enabled {
        EnableCallsEffect(r, d, ds, i, Corrected);
      } else {
        D.AttribEnableStep(d, cur.enabled, i, false);
      }
      MirrorsIgnoresAttribs(r, d, o.r, d');
      forall k | 0 <= k < NumVertexAttrs
        ensures AttribMirrorsAt(o.r.glAttrs[k], o.r.glAttrVBs[k], d', k)
      {
        if k != i {
          assert AttribMirrorsAt(r.glAttrs[k], r.glAttrVBs[k], d, k);
        }
      }
    }
  }

  lemma {:induction false} AttribLoopKeepsMirrors(r: Renderer, d: D.Driver, ds: DrawState, i: nat)
    requires Mirrors(r, d) && AttribMirrors(r, d) && DrawStateWf(ds) && SlotsIndexed(ds) && i <= NumVertexAttrs
    ensures var o := AttribLoop(r, ds, i, Corrected); var d' := D.Exec(d, o.calls);
      Mirrors(o.r, d') && AttribMirrors(o.r, d') && d'.framebuffer == d.framebuffer
    decreases NumVertexAttrs - i
  {
    if i < NumVertexAttrs {
      var s := SlotStep(r, ds, i, Corrected);
      SlotStepKeepsMirrors(r, d, ds, i);
      var d1 := D.Exec(d, s.calls);
      AttribLoopKeepsMirrors(s.r, d1, ds, i + 1);
      D.ExecAppend(d, s.calls, AttribLoop(s.r, ds, i + 1, Corrected).calls);
    }
  }

  /** The corrected mesh-state step keeps the cache a mirror of the
      driver, attribute arrays included, binds the first mesh's index
      buffer and leaves the framebuffer alone. */
  lemma MeshStateKeepsMirrors(r: Renderer, d: D.Driver, ds: DrawState)
    requires Mirrors(r, d) && AttribMirrors(r, d) && DrawStateWf(ds) && SlotsIndexed(ds)
    ensures var o := ApplyMeshState(r, ds); var d' := D.Exec(d, o.calls);
      && Mirrors(o.r, d') && AttribMirrors(o.r, d') && d'.framebuffer == d.framebuffer
      && d'.elementBuffer == ds.meshes[0].glIndexBuffer
  {
    var b := BindIndexBuffer(r, ds.meshes[0].glIndexBuffer);
    BindIndexBufferKeepsMirrors(r, d, ds.meshes[0].glIndexBuffer);
    var d1 := D.Exec(d, b.calls);
    AttribLoopKeepsMirrors(b.r, d1, ds, 0);
    D.ExecAppend(d, b.calls, AttribLoop(b.r, ds, 0, Corrected).calls);
  }

  /** After the corrected mesh-state step the driver's attribute arrays are
      exactly what the draw state describes: each slot enabled as described
      and, when enabled, reading its mesh's active buffer with the described
      format and divisor. */
  lemma MeshStateConfiguresAttribs(r: Renderer, d: D.Driver, ds: DrawState)
    requires Mirrors(r, d) && AttribMirrors(r, d) && DrawStateWf(ds) && SlotsIndexed(ds)
    ensures var o := ApplyMeshState(r, ds); var d' := D.Exec(d, o.calls);
      forall k :: 0 <= k < NumVertexAttrs ==>
        d'.Attrib(k).enabled == ds.glAttrs[k].enabled
        && (ds.glAttrs[k].enabled ==>
              d'.Attrib(k).buffer == AttribBuffer(ds, k) && d'.Attrib(k).format == ds.glAttrs[k].format
              && d'.Attrib(k).divisor == ds.glAttrs[k].divisor)
  {
    MeshStateKeepsMirrors(r, d, ds);
    var o := ApplyMeshState(r, ds);
    var d' := D.Exec(d, o.calls);
    forall k | 0 <= k < NumVertexAttrs
      ensures d'.Attrib(k).enabled == ds.glAttrs[k].enabled
      ensures ds.glAttrs[k].enabled ==>
                d'.Attrib(k).buffer == AttribBuffer(ds, k) && d'.Attrib(k).format == ds.glAttrs[k].format
                && d'.Attrib(k).divisor == ds.glAttrs[k].divisor
    {
      assert AttribMirrorsAt(o.r.glAttrs[k], o.r.glAttrVBs[k], d', k);
    }
  }

  /** Repeating the mesh-state step for the same draw state issues no
      call: every slot's buffer and description already match. */
  lemma MeshStateIdempotent(r: Renderer, ds: DrawState)
    requires Wf(r) && DrawStateWf(ds)
    ensures var o := ApplyMeshState(r, ds); ApplyMeshState(o.r, ds) == Out(o.r, [])
  {
    SettledMeshStateIsQuiet(ApplyMeshState(r, ds).r, ds);
  }

  /** A cache that already holds the draw state's index buffer, attribute
      descriptions and enabled slots' buffers needs no call. */
  lemma SettledMeshStateIsQuiet(r: Renderer, ds: DrawState)
    requires Wf(r) && DrawStateWf(ds) && r.glAttrs == ds.glAttrs && r.indexBuffer == ds.meshes[0].glIndexBuffer
    requires forall k :: 0 <= k < NumVertexAttrs && ds.glAttrs[k].enabled ==> r.glAttrVBs[k] == AttribBuffer(ds, k)
    ensures ApplyMeshState(r, ds) == Out(r, [])
  {
    assert BindIndexBuffer(r, ds.meshes[0].glIndexBuffer) == Out(r, []);
    SettledLoopIsQuiet(r, ds, 0, Corrected);
    assert [] + AttribLoop(r, ds, 0, Corrected).calls == [];
  }

  /** The loop over slots whose cache already matches the draw state does
      nothing. */
  lemma {:induction false} SettledLoopIsQuiet(r: Renderer, ds: DrawState, i: nat, rule: Variant)
    requires Wf(r) && DrawStateWf(ds) && i <= NumVertexAttrs
    requires forall k :: i <= k < NumVertexAttrs ==> r.glAttrs[k] == ds.glAttrs[k]
    requires forall k :: i <= k < NumVertexAttrs && ds.glAttrs[k].enabled ==> r.glAttrVBs[k] == AttribBuffer(ds, k)
    ensures AttribLoop(r, ds, i, rule) == Out(r, [])
    decreases NumVertexAttrs - i
  {
    if i < NumVertexAttrs {
      assert SlotStep(r, ds, i, rule) == Out(r, []);
      SettledLoopIsQuiet(r, ds, i + 1, rule);
      assert [] + AttribLoop(r, ds, i + 1, rule).calls == [];
    }
  }

  /** The stale divisor, part one: disabling a slot whose array had a
      non-zero divisor leaves that divisor in the driver while the cache
      records the disabled description's divisor; the mirror relation,
      which ignores a disabled array's divisor, still holds. */
  lemma DisableKeepsStaleDivisor(r: Renderer, d: D.Driver, ds: DrawState, i: nat)
    requires Mirrors(r, d) && AttribMirrors(r, d) && DrawStateWf(ds) && i < NumVertexAttrs
    requires ds.glAttrs[i].index == i && !ds.glAttrs[i].enabled
    ensures var o := SlotStep(r, ds, i, AsWritten); var d' := D.Exec(d, o.calls);
      && AttribMirrors(o.r, d') && o.r.glAttrs[i].divisor == ds.glAttrs[i].divisor
      && d'.Attrib(i).divisor == d.Attrib(i).divisor
  {
    var o := SlotStep(r, ds, i, AsWritten);
    assert AttribMirrorsAt(r.glAttrs[i], r.glAttrVBs[i], d, i);
    if o.calls != [] {
      D.AttribEnableStep(d, r.glAttrs[i].enabled, i, false);
    }
    var d' := D.Exec(d, o.calls);
    forall k | 0 <= k < NumVertexAttrs
      ensures AttribMirrorsAt(o.r.glAttrs[k], o.r.glAttrVBs[k], d', k)
    {
      if k != i {
        assert AttribMirrorsAt(r.glAttrs[k], r.glAttrVBs[k], d, k);
      }
    }
  }

  /** The stale divisor, part two: re-enabling the slot with the divisor the
      cache holds sends no divisor call as written, so the driver keeps the
      stale one and the cache no longer mirrors the attribute array. */
  lemma StaleDivisorIsKept(r: Renderer, d: D.Driver, ds: DrawState, i: nat)
    requires Mirrors(r, d) && AttribMirrors(r, d) && DrawStateWf(ds) && i < NumVertexAttrs
    requires ds.glAttrs[i].index == i && ds.glAttrs[i].enabled && !r.glAttrs[i].enabled
    requires r.glAttrs[i].divisor == ds.glAttrs[i].divisor && d.Attrib(i).divisor != ds.glAttrs[i].divisor
    ensures var o := SlotStep(r, ds, i, AsWritten);
      && o.r.glAttrs[i] == ds.glAttrs[i]
      && D.Exec(d, o.calls).Attrib(i).divisor != o.r.glAttrs[i].divisor
      && !AttribMirrors(o.r, D.Exec(d, o.calls))
  {
    assert AttribMirrorsAt(r.glAttrs[i], r.glAttrVBs[i], d, i);
    EnableCallsEffect(r, d, ds, i, AsWritten);
    var o := SlotStep(r, ds, i, AsWritten);
    assert !AttribMirrorsAt(o.r.glAttrs[i], o.r.glAttrVBs[i], D.Exec(d, o.calls), i);
  }
}
