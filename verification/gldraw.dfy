/** Drawing and vertex uploads: the draw calls for the current draw
    state's primitive groups, and the ring of vertex buffers a streamed
    mesh rotates through on every upload. */
module GlDraw {
  import opened GlTypes
  import D = GlDriver
  import opened GlCache

  /** The renderer may draw: a render target is set and the current draw
      state, if any, can be drawn from. */
  predicate CanDraw(r: Renderer) {
    r.rtValid && (r.curDrawState.Some? ==> DrawStateWf(r.curDrawState.value))
  }

  /** The draw call for a primitive group of a mesh; indexed meshes draw
      elements starting at the group's first index, given as a byte offset. */
  function GroupCall(m: Mesh, pg: PrimitiveGroup): (c: D.GlCall)
    ensures D.Inert(c)
    ensures c.DrawElements? <==> m.indexType != NoIndices
    ensures (c.DrawElements? || c.DrawArrays?) && c.primType == pg.primType && c.count == pg.numElements
    ensures c.DrawElements? ==>
      c.indexType == m.indexType && c.byteOffset == pg.baseElement * IndexByteSize(m.indexType)
    ensures c.DrawArrays? ==> c.first == pg.baseElement
  {
    if m.indexType != NoIndices then
      D.DrawElements(pg.primType, pg.numElements, m.indexType, pg.baseElement * IndexByteSize(m.indexType))
    else
      D.DrawArrays(pg.primType, pg.baseElement, pg.numElements)
  }

  /** The instanced form of a draw call: the same kind of draw with the
      same fields, plus the instance count. */
  function InstancedCall(c: D.GlCall, numInstances: int): (i: D.GlCall)
    requires c.DrawElements? || c.DrawArrays?
    ensures D.Inert(i)
    ensures i.DrawElementsInstanced? <==> c.DrawElements?
    ensures i.DrawArraysInstanced? <==> c.DrawArrays?
    ensures i.primType == c.primType && i.count == c.count && i.instances == numInstances
    ensures i.DrawElementsInstanced? ==> i.indexType == c.indexType && i.byteOffset == c.byteOffset
    ensures i.DrawArraysInstanced? ==> i.first == c.first
  {
    if c.DrawElements? then D.DrawElementsInstanced(c.primType, c.count, c.indexType, c.byteOffset, numInstances)
    else D.DrawArraysInstanced(c.primType, c.first, c.count, numInstances)
  }

  /** Draws a primitive group of the current draw state's first mesh; does
      nothing without a draw state. */
  function Draw(r: Renderer, pg: PrimitiveGroup): (calls: seq<D.GlCall>)
    requires CanDraw(r)
    ensures calls == [] <==> r.curDrawState.None?
    ensures r.curDrawState.Some? ==> calls == [GroupCall(r.curDrawState.value.meshes[0], pg)]
    ensures forall c :: c in calls ==> D.Inert(c) && (c.DrawElements? || c.DrawArrays?)
  {
    match r.curDrawState
    case None => []
    case Some(ds) => [GroupCall(ds.meshes[0], pg)]
  }

  /** Draws the first mesh's primitive group with the given index; does
      nothing without a draw state or for an index past the last group. */
  function DrawIndex(r: Renderer, index: int): (calls: seq<D.GlCall>)
    requires CanDraw(r) && 0 <= index
    ensures calls == [] <==> r.curDrawState.None? || index >= |r.curDrawState.value.meshes[0].primGroups|
    ensures calls != [] ==> calls == Draw(r, r.curDrawState.value.meshes[0].primGroups[index])
  {
    match r.curDrawState
    case None => []
    case Some(ds) =>
      if index >= |ds.meshes[0].primGroups| then [] else Draw(r, ds.meshes[0].primGroups[index])
  }

  /** Draws `numInstances` instances of a primitive group of the current
      draw state's first mesh; does nothing without a draw state. */
  function DrawInstanced(r: Renderer, pg: PrimitiveGroup, numInstances: int): (calls: seq<D.GlCall>)
    requires CanDraw(r)
    ensures calls == [] <==> r.curDrawState.None?
    ensures r.curDrawState.Some? ==>
      calls == [InstancedCall(GroupCall(r.curDrawState.value.meshes[0], pg), numInstances)]
    ensures forall c :: c in calls ==> D.Inert(c)
  {
    match r.curDrawState
    case None => []
    case Some(ds) => [InstancedCall(GroupCall(ds.meshes[0], pg), numInstances)]
  }

  /** What the instanced draw by index does as written: without a draw
      state it goes on to read the null draw state's first mesh. */
  datatype DrawOutcome = Issued(calls: seq<D.GlCall>) | NullDrawState

  function DrawInstancedIndexAsWritten(r: Renderer, index: int, numInstances: int): (out: DrawOutcome)
    requires CanDraw(r) && 0 <= index
    ensures out.NullDrawState? <==> r.curDrawState.None?
  {
    match r.curDrawState
    case None => NullDrawState
    case Some(ds) =>
      if index >= |ds.meshes[0].primGroups| then Issued([])
      else Issued(DrawInstanced(r, ds.meshes[0].primGroups[index], numInstances))
  }

  /** The instanced draw by index with the guard its sibling has. */
  function DrawInstancedIndex(r: Renderer, index: int, numInstances: int): (calls: seq<D.GlCall>)
    requires CanDraw(r) && 0 <= index
    ensures calls == [] <==> r.curDrawState.None? || index >= |r.curDrawState.value.meshes[0].primGroups|
    ensures DrawInstancedIndexAsWritten(r, index, numInstances) != NullDrawState
            ==> DrawInstancedIndexAsWritten(r, index, numInstances) == Issued(calls)
  {
    match r.curDrawState
    case None => []
    case Some(ds) =>
      if index >= |ds.meshes[0].primGroups| then [] else DrawInstanced(r, ds.meshes[0].primGroups[index], numInstances)
  }

  /** As written, an instanced draw by index without a draw state does not
      stop where the plain draw by index does: it dereferences the missing
      draw state. */
  lemma NullDrawStateIsDereferenced(r: Renderer, index: int, numInstances: int)
    requires CanDraw(r) && 0 <= index && r.curDrawState.None?
    ensures DrawIndex(r, index) == []
    ensures DrawInstancedIndexAsWritten(r, index, numInstances) == NullDrawState
  {
  }

  /** Instanced and plain draws agree: the instanced draw issues exactly
      the instanced form of the plain draw's calls, by group and by index. */
  lemma InstancedMatchesPlain(r: Renderer, pg: PrimitiveGroup, index: int, numInstances: int)
    requires CanDraw(r) && 0 <= index
    ensures |DrawInstanced(r, pg, numInstances)| == |Draw(r, pg)|
    ensures forall k :: 0 <= k < |Draw(r, pg)| ==>
      DrawInstanced(r, pg, numInstances)[k] == InstancedCall(Draw(r, pg)[k], numInstances)
    ensures |DrawInstancedIndex(r, index, numInstances)| == |DrawIndex(r, index)|
    ensures forall k :: 0 <= k < |DrawIndex(r, index)| ==>
      DrawInstancedIndex(r, index, numInstances)[k] == InstancedCall(DrawIndex(r, index)[k], numInstances)
  {
  }

  /** Draws change neither the cache nor any driver state it mirrors. */
  lemma DrawsKeepDriver(r: Renderer, d: D.Driver, pg: PrimitiveGroup, index: int, numInstances: int)
    requires CanDraw(r) && 0 <= index
    ensures D.Exec(d, Draw(r, pg)) == d
    ensures D.Exec(d, DrawIndex(r, index)) == d
    ensures D.Exec(d, DrawInstanced(r, pg, numInstances)) == d
    ensures D.Exec(d, DrawInstancedIndex(r, index, numInstances)) == d
  {
    D.ExecInert(d, Draw(r, pg));
    D.ExecInert(d, DrawIndex(r, index));
    D.ExecInert(d, DrawInstanced(r, pg, numInstances));
    D.ExecInert(d, DrawInstancedIndex(r, index, numInstances));
  }

  /** The slot a streamed mesh moves on to: the next one, counted in the
      renderer's 8-bit slot index, and the first once past the last. */
  function NextSlot(slot: Byte, numSlots: nat): (n: Byte)
    ensures numSlots > 0 ==> n < numSlots
    ensures numSlots <= 256 && slot < numSlots ==> n == if slot + 1 < numSlots then slot + 1 else 0
  {
    var s := (slot + 1) % 256;
    if s >= numSlots then 0 else s
  }

  /** A mesh after an upload, and what the renderer did. */
  datatype Upload = Upload(mesh: Mesh, out: Out)

  /** Uploads `numBytes` of vertex data: a streamed mesh first moves to its
      next buffer slot; the active buffer is bound and written. */
  function UpdateVertices(r: Renderer, m: Mesh, numBytes: int): (u: Upload)
    requires MeshWf(m) && 0 < numBytes <= m.vbByteSize
    requires m.usage == Stream || m.usage == Dynamic || m.usage == Static
    ensures MeshWf(u.mesh) && u.mesh.(activeVertexBufferSlot := m.activeVertexBufferSlot) == m
    ensures m.usage == Stream && m.numVertexBufferSlots <= 256 ==>
      u.mesh.activeVertexBufferSlot
        == if m.activeVertexBufferSlot + 1 < m.numVertexBufferSlots then m.activeVertexBufferSlot + 1 else 0
    ensures m.usage != Stream ==> u.mesh == m
    ensures u.out.r == r.(vertexBuffer := ActiveVertexBuffer(u.mesh))
    ensures |u.out.calls| > 0 && u.out.calls[|u.out.calls| - 1] == D.BufferSubData(numBytes)
    ensures u.out.calls[..|u.out.calls| - 1] == BindVertexBuffer(r, ActiveVertexBuffer(u.mesh)).calls
  {
    var m' := if m.usage == Stream then m.(activeVertexBufferSlot := NextSlot(m.activeVertexBufferSlot, m.numVertexBufferSlots)) else m;
    var b := BindVertexBuffer(r, ActiveVertexBuffer(m'));
    assert (b.calls + [D.BufferSubData(numBytes)])[..|b.calls|] == b.calls;
    Upload(m', Out(b.r, b.calls + [D.BufferSubData(numBytes)]))
  }

  /** An upload keeps the cache a mirror of the driver, and afterwards the
      driver's array buffer is the mesh's active one. */
  lemma UpdateVerticesKeepsMirrors(r: Renderer, d: D.Driver, m: Mesh, numBytes: int)
    requires Mirrors(r, d) && MeshWf(m) && 0 < numBytes <= m.vbByteSize
    requires m.usage == Stream || m.usage == Dynamic || m.usage == Static
    ensures var u := UpdateVertices(r, m, numBytes); var d' := D.Exec(d, u.out.calls);
      && Mirrors(u.out.r, d') && SameOutside(d, d') && d'.arrayBuffer == ActiveVertexBuffer(u.mesh)
      && (AttribMirrors(r, d) ==> AttribMirrors(u.out.r, d'))
  {
    var u := UpdateVertices(r, m, numBytes);
    var b := BindVertexBuffer(r, ActiveVertexBuffer(u.mesh));
    BindVertexBufferKeepsMirrors(r, d, ActiveVertexBuffer(u.mesh));
    var d1 := D.Exec(d, b.calls);
    D.ExecInert(d1, [D.BufferSubData(numBytes)]);
    D.ExecAppend(d, b.calls, [D.BufferSubData(numBytes)]);
  }

  /** The slot after `k` streamed uploads. */
  function SlotAfter(slot: Byte, numSlots: nat, k: nat): Byte
  {
    if k == 0 then slot else NextSlot(SlotAfter(slot, numSlots, k - 1), numSlots)
  }

  /** Streamed uploads walk through the slots in order: a mesh with at
      most 256 slots moves one slot per upload up to the last one, and the
      upload after the last slot brings it back to the first. */
  lemma {:induction false} StreamAdvances(slot: Byte, numSlots: nat, k: nat)
    requires numSlots <= 256 && slot < numSlots && slot + k < numSlots
    ensures SlotAfter(slot, numSlots, k) == slot + k
  {
    if k > 0 {
      StreamAdvances(slot, numSlots, k - 1);
    }
  }

  lemma StreamWraps(slot: Byte, numSlots: nat)
    requires numSlots <= 256 && slot < numSlots
    ensures SlotAfter(slot, numSlots, numSlots - slot) == 0
  {
    StreamAdvances(slot, numSlots, numSlots - slot - 1);
  }

  /** `a + b` uploads are `a` uploads followed by `b` more. */
  lemma {:induction false} SlotAfterAdd(slot: Byte, numSlots: nat, a: nat, b: nat)
    ensures SlotAfter(slot, numSlots, a + b) == SlotAfter(SlotAfter(slot, numSlots, a), numSlots, b)
  {
    if b > 0 {
      SlotAfterAdd(slot, numSlots, a, b - 1);
    }
  }

  /** After as many streamed uploads as it has slots, a mesh is back at the
      slot it started from. */
  lemma StreamCycles(slot: Byte, numSlots: nat)
    requires numSlots <= 256 && slot < numSlots
    ensures SlotAfter(slot, numSlots, numSlots) == slot
  {
    StreamWraps(slot, numSlots);
    SlotAfterAdd(slot, numSlots, numSlots - slot, slot);
    StreamAdvances(0, numSlots, slot);
  }
}
