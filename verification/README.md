# Oryol Gfx core: resource lifecycle, GL state cache, vertex layout

A Dafny model of three parts of Oryol's Gfx module.

- **The resource container** (`gfxResourceContainer.cc`). It creates meshes, textures, shaders, program bundles and draw states in typed slot pools. It deduplicates them by locator through a registry, and it records for each slot whether the resource is Pending, Valid or Failed.
  - It covers synchronous `Create` and the asynchronous `prepareAsync` / `initAsync` / `failedAsync` path.
  - Draw states whose meshes are still loading are parked in a pending list. The per-frame `update` resolves them and polls the pending loaders.
  - `Destroy(label)` releases everything registered under a label.
  - The state is an immutable `Container` value. Each operation returns the next value.
  - Factories are a total function from a setup and its payload to Valid or Failed. Every factory setup and destruction is appended to the container's `calls` trace, so "called exactly once" and "never called" can be stated.
- **The GL renderer's state cache** (`glRenderer.cc`, with the cache declared in `glRenderer.h`).
  - Every operation returns `Out(renderer', calls)`: the new cache and the GL calls it issues, in order.
  - `GlDriver` gives those calls a meaning: it is a reference model of the GL state that each call changes.
  - `GlCache.Mirrors(r, d)` says the cache tells the truth about driver state `d`. `GlCache.AttribMirrors` says the same for the vertex attribute arrays.
  - The main properties have this shape: if the cache mirrored the driver before, it mirrors the driver after the emitted calls run, and nothing outside the mirrored state changes. Others are "a call is emitted exactly when the request differs from the cache" and "repeating a request emits nothing".
  - The mirror property holds for the setters, the render target, the clear and the draws as the source writes them. It fails for two steps as written: the depth-stencil step and the attribute loop of the mesh-state step (see Findings).
  - For those two steps, and for the draw-state step built from them, the model has both readings, selected by `GlCache.Variant`. `AsWritten` follows the source. `Corrected` repairs the two defects, and the mirror lemmas are proved for it. `GlRenderer.DrawStateReadingsAgree` names the requests on which the two readings send the same calls.
- **`VertexLayout.h`**: a vertex component (attribute, format), its validity, and the layout's component accessors. The accessors rely on the layout invariant that the layout's own construction and `Add` maintain.

The modules follow the source:

| Module | Source |
|---|---|
| `Handles` | ids, resource types, states, setups |
| `Pool` | a slot pool with a free queue and generation stamps |
| `Registry` | the locator registry |
| `Container` | Create, the async path, Load |
| `Frame` | draw-state dependencies, pending draw states, loaders, update, Destroy |
| `GlTypes` | the GL state records |
| `GlDriver` | the call events and their effect on the driver |
| `GlCache` | the cache, its mirror relation, the simple setters |
| `GlFixedFunction` | blend, rasterizer, depth-stencil, clear |
| `GlMesh` | applyMeshState |
| `GlDraw` | draw calls, updateVertices |
| `GlRenderer` | render target, applyDrawState |
| `VertexLayout` | the vertex layout value type |

Where the code and its documentation disagree, the model follows the code:
- `Component::IsValid` looks only at the attribute, although its comment says attribute and format.
- `drawInstanced(int32)` has an empty null-guard block; see Findings.

## Model

| member | source | states |
|---|---|---|
| Pool.AllocId | code/Modules/Gfx/Resource/gfxResourceContainer.cc:87 | a fresh Id takes the first free slot with a new stamp; it is not contained before or after, and which Ids the pool contains does not change |
| Pool.Assign | code/Modules/Gfx/Resource/gfxResourceContainer.cc:89 | the Id's slot then holds the Id, setup and state; every other contained Id keeps its slot |
| Pool.UpdateState | code/Modules/Gfx/Resource/gfxResourceContainer.cc:92 | only the state of that Id's slot changes; the set of contained Ids is unchanged |
| Pool.Unassign | code/Modules/Gfx/Resource/gfxResourceContainer.cc:437 | the Id is no longer contained; every other Id keeps its membership and slot |
| Pool.UnassignedIdStaysStale | code/Modules/Gfx/Resource/gfxResourceContainer.cc:437 | a released Id is not contained after the next allocation and assignment, even when that allocation reuses its slot |
| Registry.Lookup | code/Modules/Gfx/Resource/gfxResourceContainer.cc:82 | a valid Id is returned exactly when some entry has the locator, and then it is that entry's Id; otherwise the invalid Id |
| Registry.Add | code/Modules/Gfx/Resource/gfxResourceContainer.cc:88 | appends (locator, Id, label); afterwards the locator looks up to the Id |
| Registry.LookupUnique | code/Modules/Gfx/Resource/gfxResourceContainer.cc:82 | every registered entry's locator looks up to that entry's own Id |
| Registry.Remove | code/Modules/Gfx/Resource/gfxResourceContainer.cc:424 | keeps exactly the entries under earlier labels; returns, without repeats, exactly the Ids of the entries under the label or later ones, none of them still registered |
| Container.DependencyState | code/Modules/Gfx/Resource/gfxResourceContainer.cc:331-364 | the answer is Valid, Failed or Pending (never Initial or Setup for settled pools); it is Valid exactly when every referenced mesh is invalid or a live, Valid mesh |
| Container.FirstBlockerDecides | code/Modules/Gfx/Resource/gfxResourceContainer.cc:337-358 | Pending or Failed is decided by the first valid mesh reference that is not a live Valid mesh: Pending when it is loading, Failed when it is gone or Failed |
| Container.Create | code/Modules/Gfx/Resource/gfxResourceContainer.cc:301-327 | on a registry hit it returns the registered Id and changes nothing; on a miss it registers (locator, fresh Id, top label), and either runs the factory once and stores its result, or, for a draw state with a loading mesh, parks the Id as Pending without a factory call; no other resource changes |
| Container.CreateBuilt | code/Modules/Gfx/Resource/gfxResourceContainer.cc:78-95 | a miss registers a fresh Id, runs the factory exactly once and leaves the slot in the factory's result, Valid or Failed |
| Container.CreateParked | code/Modules/Gfx/Resource/gfxResourceContainer.cc:314-319 | a draw state with a loading mesh is registered, marked Pending and appended to the pending list, with no factory call |
| Container.CreateTwiceSharesId | code/Modules/Gfx/Resource/gfxResourceContainer.cc:82-85 | creating the same locator twice returns the same Id and leaves the container as the first call left it; at most one factory call in total |
| Container.PrepareAsync | code/Modules/Gfx/Resource/gfxResourceContainer.cc:166-173 | registers a fresh Id whose slot is Pending, with no factory call |
| Container.InitAsync | code/Modules/Gfx/Resource/gfxResourceContainer.cc:177-194 | on a destroyed Id it returns InvalidState and changes nothing; otherwise it runs the factory once, stores the result and returns it; only that resource's slot and the factory trace change |
| Container.FailedAsync | code/Modules/Gfx/Resource/gfxResourceContainer.cc:230-256 | on a destroyed Id it returns InvalidState and changes nothing; otherwise it stores and returns Failed without a factory call; only that resource's slot changes |
| Container.Load | code/Modules/Gfx/Resource/gfxResourceContainer.cc:405-417 | the returned Id is live and registered under the loader's locator; a registered locator returns its Id and changes nothing; otherwise the loader is appended and a fresh Pending Id is registered under the current label, with no factory call |
| Container.LoadTwiceSharesId | code/Modules/Gfx/Resource/gfxResourceContainer.cc:408-411 | loading a locator a second time returns the first load's Id and changes nothing, so at most one loader is added |
| Frame.ResolveOne | code/Modules/Gfx/Resource/gfxResourceContainer.cc:371-399 | one pending entry: it stays when its meshes still load; otherwise it is removed and becomes the factory's result (one factory call) when the meshes are Valid, or Failed (no call) otherwise |
| Frame.HandlePendingDrawStates | code/Modules/Gfx/Resource/gfxResourceContainer.cc:368-401 | exactly the still-loading entries stay, in order; every resolved entry gets its final state and its factory call, last entry first; nothing else changes |
| Frame.PassStep | code/Modules/Gfx/Resource/gfxResourceContainer.cc:371-399 | the backwards loop's invariant is kept when one more entry is handled |
| Frame.Continue | code/Modules/Gfx/Resource/gfxResourceContainer.cc:513-517 | one loader poll: arrived data runs the second phase (InitAsync), a failed load marks the resource Failed (FailedAsync); the answer is Pending exactly while the loader is still loading; no other resource's state, no registry entry and no draw state changes |
| Frame.Polled | code/Modules/Gfx/Resource/gfxResourceContainer.cc:512-517 | after polling a list of loaders, only resources some poll completed have a different state; registry, labels, pending draw states and live Ids are unchanged; the factory trace only grows |
| Frame.ContinueLoaders | code/Modules/Gfx/Resource/gfxResourceContainer.cc:510-517 | the container is the polled one, and it keeps exactly the loaders whose poll answered Pending, in order |
| Frame.UnfinishedMembers | code/Modules/Gfx/Resource/gfxResourceContainer.cc:510-517 | a loader is kept exactly when it was pending before and its poll answered Pending |
| Frame.Update | code/Modules/Gfx/Resource/gfxResourceContainer.cc:500-521 | polls the loaders first, then resolves the pending draw states against the meshes as the loaders left them; registry and live Ids unchanged |
| Frame.PolledOneMesh | code/Modules/Gfx/Resource/gfxResourceContainer.cc:512-517 | when a frame's only completion is one mesh loading successfully, that mesh is Valid afterwards and every other state is unchanged |
| Frame.SameFrameResolution | code/Modules/Gfx/Resource/gfxResourceContainer.cc:500-521 | a mesh that finishes loading and a draw state parked only on it resolve in the same frame: the draw state is no longer parked and becomes the factory's result, with one factory call |
| Frame.ResolvedOnlyWhenMeshesAre | code/Modules/Gfx/Resource/gfxResourceContainer.cc:331-364 | a parked draw state resolves to Valid exactly when all its meshes are usable; it resolves to Failed only when a referenced mesh is gone or Failed |
| Frame.DestroyOne | code/Modules/Gfx/Resource/gfxResourceContainer.cc:429-437 | the Id is released; a destruction call is made exactly when it was Valid; nothing else changes |
| Frame.Destroy | code/Modules/Gfx/Resource/gfxResourceContainer.cc:421-496 | every Id removed from the registry is released, with a destruction call only for those that were Valid; every other resource keeps its state |
| Frame.DestroyStep | code/Modules/Gfx/Resource/gfxResourceContainer.cc:425-495 | the release loop's invariant is kept for one more Id |
| Frame.Unregister | code/Modules/Gfx/Resource/gfxResourceContainer.cc:424 | removing a label's entries keeps the container invariant; every removed Id was live |
| Frame.DestroyRespectsLabels | code/Modules/Gfx/Resource/gfxResourceContainer.cc:424-495 | after Destroy(label), entries under that label or later ones are gone and released; entries under earlier labels stay, with their states |
| Frame.DestroyCallsOnlyValid | code/Modules/Gfx/Resource/gfxResourceContainer.cc:429-489 | every destruction call names a released Id that was Valid, and every released Valid Id gets one |
| GlCache.ApplyViewPort | code/Modules/Gfx/gl/glRenderer.cc:227-241 | the cache then holds the rectangle; at most one Viewport call, made exactly when the rectangle differed |
| GlCache.ApplyScissorRect | code/Modules/Gfx/gl/glRenderer.cc:294-308 | the same for the scissor rectangle |
| GlCache.BindVertexBuffer | code/Modules/Gfx/gl/glRenderer.cc:645-653 | the cache holds the buffer; one bind call exactly when it differed |
| GlCache.BindIndexBuffer | code/Modules/Gfx/gl/glRenderer.cc:657-665 | the same for the index buffer |
| GlCache.UseProgram | code/Modules/Gfx/gl/glRenderer.cc:679-687 | the same for the program |
| GlCache.BindTexture | code/Modules/Gfx/gl/glRenderer.cc:702-715 | only the sampler entry of that index and target changes; the calls are ActiveTexture then BindTexture, made exactly when the entry differed |
| GlCache.InvalidateMeshState | code/Modules/Gfx/gl/glRenderer.cc:630-641 | both buffer bindings are reset to 0 in the driver and the cache; all cached attributes are reset; nothing else changes |
| GlCache.InvalidateProgramState | code/Modules/Gfx/gl/glRenderer.cc:669-675 | program 0 is used and cached |
| GlCache.InvalidateTextureState | code/Modules/Gfx/gl/glRenderer.cc:691-698 | every cached sampler becomes 0, without a driver call |
| GlCache.InvalidateThenBindTexture | code/Modules/Gfx/gl/glRenderer.cc:691-715 | after invalidation the cache mirrors the driver except for its texture tables; binding a non-zero texture afterwards always emits the bind and makes that slot a mirror again |
| GlCache.CommitFrame | code/Modules/Gfx/gl/glRenderer.cc:219-223 | no render target is valid or current afterwards; nothing else changes, no call |
| GlCache.SettersIdempotent | code/Modules/Gfx/gl/glRenderer.cc:645-687 | repeating a viewport, scissor, buffer or program request emits nothing and changes nothing |
| GlCache.ViewPortKeepsMirrors | code/Modules/Gfx/gl/glRenderer.cc:227-241 | the cache still mirrors the driver after the viewport calls run |
| GlCache.ScissorRectKeepsMirrors | code/Modules/Gfx/gl/glRenderer.cc:294-308 | the same for the scissor rect |
| GlCache.BindVertexBufferKeepsMirrors | code/Modules/Gfx/gl/glRenderer.cc:645-653 | the same for a vertex buffer bind; the attribute arrays are untouched |
| GlCache.BindIndexBufferKeepsMirrors | code/Modules/Gfx/gl/glRenderer.cc:657-665 | the same for an index buffer bind |
| GlCache.UseProgramKeepsMirrors | code/Modules/Gfx/gl/glRenderer.cc:679-687 | the same for a program change |
| GlCache.InvalidateProgramStateKeepsMirrors | code/Modules/Gfx/gl/glRenderer.cc:669-675 | the same for the program reset |
| GlCache.BindTextureKeepsMirrors | code/Modules/Gfx/gl/glRenderer.cc:702-715 | the same for a texture bind |
| GlCache.InvalidateMeshStateKeepsMirrors | code/Modules/Gfx/gl/glRenderer.cc:630-641 | the buffer reset keeps the cache a mirror |
| GlFixedFunction.ApplyBlendState | code/Modules/Gfx/gl/glRenderer.cc:836-881 | the cache takes the blend state; calls are made exactly when it differed, at most four |
| GlFixedFunction.BlendCallsEffect | code/Modules/Gfx/gl/glRenderer.cc:836-881 | the calls set the driver's blend enable, factors, operations and colour mask to the request and change nothing else |
| GlFixedFunction.BlendStateKeepsMirrors | code/Modules/Gfx/gl/glRenderer.cc:836-881 | the cache still mirrors the driver afterwards |
| GlFixedFunction.ApplyRasterizerState | code/Modules/Gfx/gl/glRenderer.cc:904-963 | the cache takes the rasterizer state; calls are made exactly when it differed, at most six |
| GlFixedFunction.RasterizerCallsEffect | code/Modules/Gfx/gl/glRenderer.cc:904-963 | the calls set cull face, depth offset, scissor test, dither and multisample to the request, nothing else |
| GlFixedFunction.RasterizerStateKeepsMirrors | code/Modules/Gfx/gl/glRenderer.cc:904-963 | the cache still mirrors the driver afterwards |
| GlFixedFunction.ApplyStencilState | code/Modules/Gfx/gl/glRenderer.cc:736-764 | every call addresses the given face; none is made exactly when that face's settings already match |
| GlFixedFunction.StencilStateSetsFace | code/Modules/Gfx/gl/glRenderer.cc:736-764 | the calls leave the driver's face settings equal to the request's |
| GlFixedFunction.ApplyDepthStencilStateAsWritten | code/Modules/Gfx/gl/glRenderer.cc:768-817 | the applier as written: the cache takes the request |
| GlFixedFunction.StencilRefChangeIsLost | code/Modules/Gfx/gl/glRenderer.cc:798-815 | as written, a change of only the stencil reference value makes no call, yet the cache records it, so it stops mirroring the driver |
| GlFixedFunction.ApplyDepthStencilState | code/Modules/Gfx/gl/glRenderer.cc:768-817 | corrected applier: the cache takes the request; calls are made exactly when it differed |
| GlFixedFunction.DepthStencilCallsEffect | code/Modules/Gfx/gl/glRenderer.cc:768-817 | the corrected calls set depth function, depth write, stencil test and both faces to the request |
| GlFixedFunction.DepthStencilStateKeepsMirrors | code/Modules/Gfx/gl/glRenderer.cc:768-817 | with the corrected applier the cache still mirrors the driver |
| GlFixedFunction.DepthStencilReadingsAgree | code/Modules/Gfx/gl/glRenderer.cc:798-815 | when no shared stencil value changes, the applier as written sends the same calls as the corrected one |
| GlFixedFunction.DepthStencilApplier | code/Modules/Gfx/gl/glRenderer.cc:768-817 | both readings: the cache takes the request, and no call is made when it already held it; the corrected reading makes a call exactly when it differed |
| GlFixedFunction.Clear | code/Modules/Gfx/gl/glRenderer.cc:439-479 | the last call clears the requested buffers; colour write becomes RGBA, depth write on and the stencil write mask 0xFF, each only for its clear flag; nothing else in the cache changes |
| GlFixedFunction.ClearKeepsMirrors | code/Modules/Gfx/gl/glRenderer.cc:447-474 | the forced write masks reach the driver, so the cache still mirrors it |
| GlMesh.SlotStep | code/Modules/Gfx/gl/glRenderer.cc:335-364 | the slot's cached attribute becomes the draw state's; nothing happens when attribute and buffer already match; an enable or disable call is made exactly on a change that flips the enabled flag |
| GlMesh.AttribLoop | code/Modules/Gfx/gl/glRenderer.cc:334-365 | every slot from i on takes the draw state's attribute, and its buffer when enabled; earlier slots are unchanged |
| GlMesh.ApplyMeshStateWith | code/Modules/Gfx/gl/glRenderer.cc:333-365 | the index buffer and all 16 attributes are taken from the draw state; disabled slots keep their cached buffer |
| GlMesh.ApplyMeshStateAsWritten | code/Modules/Gfx/gl/glRenderer.cc:333-365 | the loop with the divisor test as written: the cache takes the draw state's attributes |
| GlMesh.ApplyMeshState | code/Modules/Gfx/gl/glRenderer.cc:333-365 | the corrected loop: the cache takes the draw state's attributes and index buffer |
| GlMesh.AttribLoopReadingsAgree | code/Modules/Gfx/gl/glRenderer.cc:348-355 | when the two divisor tests agree on every remaining slot, the loop as written makes the corrected loop's calls |
| GlMesh.MeshStateReadingsAgree | code/Modules/Gfx/gl/glRenderer.cc:333-365 | unless a slot is cached disabled and described enabled with the divisor it had, the mesh-state step as written makes the corrected step's calls |
| GlMesh.EnableCallsEffect | code/Modules/Gfx/gl/glRenderer.cc:343-355 | the enabled branch's calls enable the array and give it the buffer and format; the divisor is set when the rule asks for it; no other array changes |
| GlMesh.SlotStepKeepsMirrors | code/Modules/Gfx/gl/glRenderer.cc:340-363 | with the corrected divisor test one slot step keeps both mirror relations |
| GlMesh.AttribLoopKeepsMirrors | code/Modules/Gfx/gl/glRenderer.cc:334-365 | the corrected loop keeps both mirror relations |
| GlMesh.MeshStateKeepsMirrors | code/Modules/Gfx/gl/glRenderer.cc:333-365 | the corrected applyMeshState keeps both mirror relations and binds the mesh's index buffer |
| GlMesh.MeshStateConfiguresAttribs | code/Modules/Gfx/gl/glRenderer.cc:333-365 | afterwards every driver attribute array is enabled exactly as the draw state says, and when enabled it has the draw state's buffer, format and divisor |
| GlMesh.MeshStateIdempotent | code/Modules/Gfx/gl/glRenderer.cc:340-342 | applying the same draw state twice emits nothing the second time |
| GlMesh.SettledMeshStateIsQuiet | code/Modules/Gfx/gl/glRenderer.cc:340-342 | a cache that already holds the draw state's attributes, buffers and index buffer gets no calls |
| GlMesh.DisableKeepsStaleDivisor | code/Modules/Gfx/gl/glRenderer.cc:357-363 | as written, disabling a slot records the new divisor in the cache while the driver keeps the old one |
| GlMesh.StaleDivisorIsKept | code/Modules/Gfx/gl/glRenderer.cc:348-355 | as written, re-enabling such a slot with the recorded divisor makes no divisor call, so the driver keeps the wrong divisor and the attribute mirror breaks |
| GlDraw.GroupCall | code/Modules/Gfx/gl/glRenderer.cc:491-501 | the group's primitive type and element count are passed on; indexed meshes draw elements with the mesh's index type at byte offset baseElement times the index size; others draw arrays from baseElement |
| GlDraw.InstancedCall | code/Modules/Gfx/gl/glRenderer.cc:534-544 | the instanced form keeps the plain call's kind, primitive type, count, index type and offset or first element, and adds the instance count |
| GlDraw.Draw | code/Modules/Gfx/gl/glRenderer.cc:483-503 | no call without a draw state; otherwise exactly the group call for the primitive group on the draw state's first mesh |
| GlDraw.DrawIndex | code/Modules/Gfx/gl/glRenderer.cc:507-522 | no call without a draw state or for an index past the primitive groups; otherwise exactly the call that drawing that group makes |
| GlDraw.DrawInstanced | code/Modules/Gfx/gl/glRenderer.cc:526-546 | no call without a draw state; otherwise exactly the instanced form of the group call on the first mesh, with numInstances instances |
| GlDraw.DrawInstancedIndexAsWritten | code/Modules/Gfx/gl/glRenderer.cc:550-565 | as written, a missing draw state is reached and dereferenced |
| GlDraw.DrawInstancedIndex | code/Modules/Gfx/gl/glRenderer.cc:550-565 | corrected: no call without a draw state or for an index past the groups; agrees with the code as written whenever that one does not fail |
| GlDraw.NullDrawStateIsDereferenced | code/Modules/Gfx/gl/glRenderer.cc:553-556 | without a draw state the plain indexed draw does nothing, but the instanced one as written dereferences the null draw state |
| GlDraw.InstancedMatchesPlain | code/Modules/Gfx/gl/glRenderer.cc:526-565 | the instanced draws make the same calls as the plain ones, each with the instance count added |
| GlDraw.DrawsKeepDriver | code/Modules/Gfx/gl/glRenderer.cc:483-565 | draw calls change no driver state |
| GlDraw.NextSlot | code/Modules/Gfx/gl/glRenderer.cc:580-587 | the next slot is below the slot count; it is slot + 1, or 0 when that reaches the count |
| GlDraw.UpdateVertices | code/Modules/Gfx/gl/glRenderer.cc:569-595 | a streamed mesh advances its active slot to the next one (wrapping to 0); other usages leave it; the slot's buffer is bound, then the data uploaded |
| GlDraw.UpdateVerticesKeepsMirrors | code/Modules/Gfx/gl/glRenderer.cc:580-593 | the upload keeps both mirror relations and leaves the active buffer bound |
| GlDraw.StreamAdvances | code/Modules/Gfx/gl/glRenderer.cc:580-589 | k streamed updates that do not reach the slot count advance the slot by k |
| GlDraw.StreamWraps | code/Modules/Gfx/gl/glRenderer.cc:584-587 | the update that reaches the slot count wraps to slot 0 |
| GlDraw.StreamCycles | code/Modules/Gfx/gl/glRenderer.cc:580-589 | as many streamed updates as there are slots come back to the starting slot |
| GlRenderer.TargetAttrs | code/Modules/Gfx/gl/glRenderer.cc:249-266 | the display's attributes without a target; otherwise the texture's size and formats as a single-sampled, full-screen, non-windowed display |
| GlRenderer.ResetScissorTest | code/Modules/Gfx/gl/glRenderer.cc:286-289 | the scissor test is disabled in cache and driver, with a call only when it was enabled |
| GlRenderer.ApplyRenderTarget | code/Modules/Gfx/gl/glRenderer.cc:245-290 | the target becomes current and valid; the viewport covers its framebuffer; the scissor test is off; a framebuffer bind happens exactly when the target changed |
| GlRenderer.RenderTargetKeepsMirrors | code/Modules/Gfx/gl/glRenderer.cc:245-290 | the cache still mirrors the driver; the driver's framebuffer is the target's, its viewport covers it and its scissor test is off |
| GlRenderer.DisplayAfterCommitKeepsOldFramebuffer | code/Modules/Gfx/gl/glRenderer.cc:269-279 | after commitFrame, switching to the display makes no bind, so an offscreen framebuffer stays bound |
| GlRenderer.ApplyBlendColor | code/Modules/Gfx/gl/glRenderer.cc:425-428 | the cache takes the colour; one call exactly when it differed |
| GlRenderer.ApplyFixedFunctionWith | code/Modules/Gfx/gl/glRenderer.cc:418-431 | either reading: the cache holds the setup's depth-stencil, blend, blend colour and rasterizer states; no call when all four already matched |
| GlRenderer.ApplyFixedFunctionAsWritten | code/Modules/Gfx/gl/glRenderer.cc:418-431 | as written: the cache holds the four states; no call when all four already matched |
| GlRenderer.ApplyFixedFunction | code/Modules/Gfx/gl/glRenderer.cc:418-431 | corrected composite: the cache holds the four states; no call exactly when all four already matched |
| GlRenderer.FixedFunctionKeepsMirrors | code/Modules/Gfx/gl/glRenderer.cc:418-431 | corrected composite: the appliers keep the cache a mirror |
| GlRenderer.ApplyDrawStateWith | code/Modules/Gfx/gl/glRenderer.cc:405-435 | either reading: no draw state clears the current one without calls; otherwise the cache holds its fixed-function states, program, attributes and index buffer, and viewport, scissor, samplers and render target are untouched |
| GlRenderer.ApplyDrawStateAsWritten | code/Modules/Gfx/gl/glRenderer.cc:405-435 | as written: the same cache update |
| GlRenderer.ApplyDrawState | code/Modules/Gfx/gl/glRenderer.cc:405-435 | corrected composite: the same cache update |
| GlRenderer.DrawStateReadingsAgree | code/Modules/Gfx/gl/glRenderer.cc:418-434 | unless a shared stencil value changes or a slot is cached disabled and described enabled with the divisor it had, the draw-state step as written makes the corrected step's calls |
| GlRenderer.DrawStateAsWrittenKeepsMirrors | code/Modules/Gfx/gl/glRenderer.cc:405-435 | as written, applying a draw state outside those two cases keeps both mirror relations |
| GlRenderer.DrawStateKeepsMirrors | code/Modules/Gfx/gl/glRenderer.cc:405-435 | corrected composite: applying a draw state keeps both mirror relations |
| GlRenderer.DrawStateConfiguresDriver | code/Modules/Gfx/gl/glRenderer.cc:405-435 | corrected composite: afterwards the driver holds the draw state's blend, rasterizer and depth-stencil settings, its program, index buffer and attribute arrays |
| GlRenderer.DrawStateIdempotent | code/Modules/Gfx/gl/glRenderer.cc:409-434 | corrected composite: applying the same draw state twice emits nothing the second time |
| VertexLayout.DefaultComponent | code/Modules/Gfx/Core/VertexLayout.h:70-74 | attribute and format are both invalid, and the component is not valid |
| VertexLayout.ComponentValidity | code/Modules/Gfx/Core/VertexLayout.h:78-88 | a component keeps the attribute and format it is built from; it is valid exactly when the attribute is set, whatever the format |
| VertexLayout.Clear | code/Modules/Gfx/Core/VertexLayout.h:92-95 | both fields become invalid and the component is no longer valid |
| VertexLayout.NumComponents | code/Modules/Gfx/Core/VertexLayout.h:123-125 | the count lies between 0 and MaxNumComponents (16) |
| VertexLayout.ComponentAt | code/Modules/Gfx/Core/VertexLayout.h:129-131 | a component below the count is valid and is indexed under its own attribute |
| VertexLayout.ComponentIndexByVertexAttr | code/Modules/Gfx/Core/VertexLayout.h:105-107 | InvalidIndex exactly when no used component carries the attribute; otherwise the index of a used component carrying it |
| VertexLayout.Contains | code/Modules/Gfx/Core/VertexLayout.h:111-113 | true exactly when some used component carries the attribute, and then its component index names that component |
| VertexLayout.EmptyIffNoComponents | code/Modules/Gfx/Core/VertexLayout.h:117-119 | empty exactly when the count is 0, which is exactly when the layout contains no attribute |

## Left out

- Pool and registry internals: `ResourcePool` and `ResourceRegistry` are not part of this model. They are modelled by the contracts their uses in `gfxResourceContainer.cc` need.
  - A pool has a free-slot queue and a generation stamp.
  - `Remove(label)` removes the entries under that label and under every label pushed after it.
  - The label stack is a single `top` label; pushing and popping labels is not modelled.
- Pool `Update()` in `update()`: it only advances pool bookkeeping and is not modelled.
- Resource objects: factories are modelled as a total function on (setup, payload) that answers Valid or Failed. Building the mesh, texture, shader or program objects is not modelled.
- Loaders: loader code is not part of this model. A loader carries the setup of the resource it loads.
  - Its `Start()` is modelled as the two-phase prepare of that setup. This is what the mesh and texture loaders do; their code is not shown.
  - What its `Continue()` does this frame is a parameter, a `Frame.Poll`: still loading, data arrived, or load failed. The model carries the last two out through InitAsync and FailedAsync.
  - Retries, I/O and the loaders' own state are not modelled.
- Container.Load: requires a mesh or texture setup, because only those load asynchronously. It also requires a free slot when the locator is not registered, because pool exhaustion is an assertion in the source.
- Container.PrepareAsync: requires that the locator is not registered and that the pool has a free slot. In the source both are fatal assertions, in the registry's `Add` and the pool's `AllocId`.
- Registry.Lookup: every locator is treated as shareable. The source's anonymous (non-shared) locators, which never match an existing entry, are not modelled, because `Locator` and `ResourceRegistry` are not part of this model.
- Container.FailedAsync: the model requires a mesh or texture Id, because any other type is a fatal error in the source.
- Container.Create: requires a free slot on a registry miss, because pool exhaustion is an assertion in the source.
- setup/discard of the container and renderer, `QueryResourceInfo`, `QueryPoolInfo` and `QueryFreeSlots`: bookkeeping with no behaviour to prove.
- ConstantBlock resources: the source only asserts for them.
- GL calls are trace events. Their effect is given by the reference driver model in `GlDriver`, not by a real GL implementation.
- `supports`, `readPixels`, `resetStateCache` and the `setup*State` initialisers: foreign GL queries and initial setup.
- `applyUniformBlock`: raw-pointer float uploads.
- The `GL_*` enum tables: constant lookups. Codes are kept as bounded numbers.
- The `ORYOL_GL_USE_GETATTRIBLOCATION` code path of applyMeshState: a platform variant that bypasses the cache.
- Program bundles: `applyProgramBundle` selects a program by mask in the bundle. The model takes the selected GL program as a field of the draw state.
- Draw-state construction: each draw state's 16 attributes are assumed indexed by their slot, as the draw-state factory builds them (`SlotsIndexed`).
- Floats: colours, clear depth and blend colour are `real` values compared by equality. The clear colour, depth and stencil values are not part of the driver model.
- State hashes (`StateHash`, the face `Hash`): modelled as equality of the hashed fields, so hash collisions are not modelled.
- The framebuffer binding is not part of `Mirrors`. The display manager's default framebuffer bind is a call event.
- GlCache.InvalidateTextureState: it resets the cached samplers without a driver call, so by design the cache stops mirroring the texture bindings until they are bound again. `InvalidateThenBindTexture` states what it keeps instead.
- GlCache.InvalidateMeshState: it resets the cached attributes without a driver call, so it keeps `Mirrors` but by design not `AttribMirrors`.
- GlDraw.DrawIndex: requires a non-negative index; the source indexes its primitive group array with it unchecked.
- GlDraw.Draw and the other draw functions: the render-target-valid debug assertion is a precondition.
- GlFixedFunction.Clear: the render-target-valid debug assertion is a precondition too.
- GlDraw.UpdateVertices: the usage and size debug assertions are preconditions. The data bytes are not modelled, only their count.
- GlDraw.UpdateVertices: it returns the updated mesh as a value. The source changes the pooled mesh in place, and every draw state that points at it sees the new active slot. In the model the caller must put the returned mesh into those draw states itself.
- FixedFunctionKeepsMirrors: proved for the corrected composite only. As written, a request that changes only a shared stencil value breaks the mirror (first Findings row). `DrawStateReadingsAgree` gives the cases where the two readings coincide.
- DrawStateKeepsMirrors: proved for the corrected composite only. As written it fails in the two Findings cases on the depth-stencil and divisor tests. `DrawStateAsWrittenKeepsMirrors` proves it as written outside those cases.
- DrawStateConfiguresDriver: proved for the corrected composite only, for the same reason. As written, the driver can keep a stale stencil reference value or attribute divisor.
- `VertexLayout.cc` is not part of this model. The layout's `Clear`, `Add`, byte sizes and component byte offsets are left out. Their invariant is stated as `LayoutWf`, which the accessors assume.
- `Component::ByteSize`: it reads a format table in `Enums.h`, which is not part of this model.
- 32-bit widths: handles and sizes are unbounded naturals. The 8-bit active slot is a `Byte` whose increment wraps at 256.
- GlDraw.NextSlot: its slot-successor property is stated only for up to 256 slots, where the 8-bit counter cannot wrap first.

## Findings

| source | as written | input that shows it | evidently intended | confidence | as-written member | corrected member |
|---|---|---|---|---|---|---|
| code/Modules/Gfx/gl/glRenderer.cc:798-815 | the stencil faces are reapplied only when a face's own hash changes, but the reference value and the read and write masks belong to the shared part of the state | a draw state that differs from the cached one only in the stencil reference value: no call is made, and the cache records the new value | a change of a shared stencil value is sent to the driver for both faces | not executed | GlFixedFunction.StencilRefChangeIsLost | GlFixedFunction.DepthStencilStateKeepsMirrors |
| code/Modules/Gfx/gl/glRenderer.cc:352-363 | the divisor call compares against the cached attribute, but a disabled slot's cached divisor was never sent to the driver | slot 3 enabled with divisor 1; then a draw state with slot 3 disabled and divisor 0; then one with slot 3 enabled and divisor 0: no divisor call is made, so the driver keeps divisor 1 | the divisor is set whenever the array is enabled from a disabled state or the divisor changed | not executed | GlMesh.StaleDivisorIsKept | GlMesh.MeshStateConfiguresAttribs |
| code/Modules/Gfx/gl/glRenderer.cc:553-556 | the null draw-state guard of drawInstanced(int32) has an empty body, so the next line dereferences the missing draw state | drawInstanced(0, 2) before any draw state is applied | return without drawing, as draw(int32) does | not executed | GlDraw.NullDrawStateIsDereferenced | GlDraw.DrawInstancedIndex |

Not a finding, but a behaviour the model exposes: `commitFrame` forgets the current render target without rebinding the default framebuffer. The next `applyRenderTarget(nullptr)` then sees no change and makes no bind, so the offscreen framebuffer stays bound (GlRenderer.DisplayAfterCommitKeepsOldFramebuffer). The display manager may rebind it on present, and that code is not part of this model.
