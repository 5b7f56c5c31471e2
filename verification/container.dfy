/** The resource container: five slot pools, the locator registry, the
    label in effect, the draw states waiting for their meshes, the active
    loaders, and the sequence of factory calls made so far. */
module Container {
  import opened Handles
  import P = Pool
  import R = Registry

  datatype Pools = Pools(mesh: P.Pool, texture: P.Pool, shader: P.Pool, program: P.Pool, drawState: P.Pool)
  {
    /** The pool that holds resources of kind `t`. */
    function Of(t: ResType): P.Pool
      requires t.Pooled()
    {
      match t
      case Mesh => mesh
      case Texture => texture
      case Shader => shader
      case ProgramBundle => program
      case DrawState => drawState
    }

    /** Replaces the pool of kind `t` and no other. */
    function With(t: ResType, p: P.Pool): (ps: Pools)
      requires t.Pooled()
      ensures ps.Of(t) == p
      ensures forall u: ResType :: u.Pooled() && u != t ==> ps.Of(u) == Of(u)
    {
      match t
      case Mesh => this.(mesh := p)
      case Texture => this.(texture := p)
      case Shader => this.(shader := p)
      case ProgramBundle => this.(program := p)
      case DrawState => this.(drawState := p)
    }
  }

  /** An external resource loader for the resource `setup` describes (its
      locator is the setup's); `tag` tells apart loaders of one locator. */
  datatype Loader = Loader(setup: Descriptor, tag: nat)

  datatype Container = Container(
    pools: Pools,
    registry: R.Registry,
    top: Label,
    pendingDrawStates: seq<Id>,
    loaders: seq<Loader>,
    calls: seq<FactoryCall>)

  /** Result of the creating operations: the new container and the Id. */
  datatype Created = Created(c: Container, id: Id)

  /** Result of the completing operations: the new container and the state
      reported to the caller. */
  datatype Completed = Completed(c: Container, state: ResState)

  /** Every pool is well formed and holds its own kind. */
  ghost predicate PoolsValid(ps: Pools) {
    forall t: ResType :: t.Pooled() ==> P.Valid(ps.Of(t)) && ps.Of(t).kind == t
  }

  /** Outside an operation no slot is left in Initial, Setup or InvalidState. */
  ghost predicate Settled(p: P.Pool) {
    forall s :: s in p.slots ==> p.slots[s].state in {Pending, Valid, Failed}
  }

  ghost predicate PoolsSettled(ps: Pools) {
    forall t: ResType :: t.Pooled() ==> Settled(ps.Of(t))
  }

  /** The Id names a resource that currently exists. */
  predicate Live(c: Container, id: Id) {
    id.kind.Pooled() && P.Contains(c.pools.Of(id.kind), id)
  }

  /** The state a resource query reports; InvalidState for a dead Id. */
  function StateOf(c: Container, id: Id): ResState {
    if id.kind.Pooled() then P.QueryState(c.pools.Of(id.kind), id) else InvalidState
  }

  /** The container invariant kept between operations. */
  ghost predicate Inv(c: Container) {
    && PoolsValid(c.pools)
    && PoolsSettled(c.pools)
    && R.Valid(c.registry)
    && (forall i :: 0 <= i < |c.registry.entries| ==> Live(c, c.registry.entries[i].id))
    && (forall x :: x in c.pendingDrawStates ==> x.kind == DrawState)
  }

  /** A mesh reference that does not hold a draw state back: an invalid Id
      (an unused mesh slot of the draw state) or a live, Valid mesh. */
  ghost predicate MeshOk(mp: P.Pool, m: Id) {
    !m.IsValid() || (P.Contains(mp, m) && mp.slots[m.slot].state == Valid)
  }

  /** No reference before position `i` holds the draw state back. */
  ghost predicate PrefixOk(mp: P.Pool, meshes: seq<Id>, i: int)
    requires 0 <= i <= |meshes|
  {
    forall j :: 0 <= j < i ==> MeshOk(mp, meshes[j])
  }

  /** The combined state of the meshes a draw state references: decided by
      the first valid reference whose mesh is missing or Failed (Failed) or
      Pending (Pending), Valid when there is none. A mesh in Initial or
      Setup is a fatal error in the source; here it reads InvalidState. */
  function DependencyState(mp: P.Pool, meshes: seq<Id>): (r: ResState)
    ensures r in {Valid, Failed, Pending, InvalidState}
    ensures Settled(mp) ==> r != InvalidState
    ensures Settled(mp) ==> (r == Valid <==> forall i :: 0 <= i < |meshes| ==> MeshOk(mp, meshes[i]))
  {
    if |meshes| == 0 then Valid
    else
      var m := meshes[0];
      var rest := DependencyState(mp, meshes[1..]);
      assert forall i :: 0 < i < |meshes| ==> meshes[i] == meshes[1..][i - 1];
      if !m.IsValid() then rest
      else if !P.Contains(mp, m) then Failed
      else
        match mp.slots[m.slot].state
        case Failed => Failed
        case Pending => Pending
        case Initial => InvalidState
        case Setup => InvalidState
        case _ => rest
  }

  /** The first valid reference that holds a draw state back decides its
      dependency state: Pending for a Pending mesh, Failed for a missing or
      Failed one. */
  lemma {:induction false} FirstBlockerDecides(mp: P.Pool, meshes: seq<Id>)
    requires Settled(mp)
    ensures DependencyState(mp, meshes) == Pending ==>
      exists i :: (0 <= i < |meshes| && PrefixOk(mp, meshes, i)
        && meshes[i].IsValid() && P.Contains(mp, meshes[i]) && mp.slots[meshes[i].slot].state == Pending)
    ensures DependencyState(mp, meshes) == Failed ==>
      exists i :: (0 <= i < |meshes| && PrefixOk(mp, meshes, i)
        && meshes[i].IsValid() && (!P.Contains(mp, meshes[i]) || mp.slots[meshes[i].slot].state == Failed))
  {
    if |meshes| > 0 {
      var r := DependencyState(mp, meshes);
      var m := meshes[0];
      if r == Pending || r == Failed {
        if MeshOk(mp, m) {
          FirstBlockerDecides(mp, meshes[1..]);
          assert r == DependencyState(mp, meshes[1..]);
          var i :| 0 <= i < |meshes[1..]| && PrefixOk(mp, meshes[1..], i)
            && (meshes[1..][i].IsValid()
            && (if r == Pending then P.Contains(mp, meshes[1..][i]) && mp.slots[meshes[1..][i].slot].state == Pending
                else !P.Contains(mp, meshes[1..][i]) || mp.slots[meshes[1..][i].slot].state == Failed));
          assert meshes[i + 1] == meshes[1..][i];
          assert PrefixOk(mp, meshes, i + 1) by {
            forall j | 0 <= j < i + 1
              ensures MeshOk(mp, meshes[j])
            {
              if j > 0 {
                assert meshes[j] == meshes[1..][j - 1];
              }
            }
          }
        } else {
          assert PrefixOk(mp, meshes, 0);
        }
      }
    }
  }

  /** Synchronous creation, for every kind of setup descriptor, with or
      without raw data: a registered locator yields its Id unchanged;
      otherwise a slot is allocated, the locator is registered under the
      current label and the factory runs once, leaving the slot Valid or
      Failed. A draw state whose meshes are still Pending is parked instead,
      without a factory call. */
  function Create(c: Container, d: Descriptor, data: Payload, f: Factory): (r: Created)
    requires Inv(c) && d.kind.Pooled()
    requires data.Data? ==> d.kind.Async() && |data.bytes| > 0
    requires !R.Lookup(c.registry, d.locator).IsValid() ==> |c.pools.Of(d.kind).free| > 0
    ensures Inv(r.c)
    ensures R.Lookup(c.registry, d.locator).IsValid() ==> r == Created(c, R.Lookup(c.registry, d.locator))
    ensures !R.Lookup(c.registry, d.locator).IsValid() ==>
      && r.id.kind == d.kind && !Live(c, r.id) && Live(r.c, r.id)
      && r.c.registry.entries == c.registry.entries + [R.Entry(d.locator, r.id, c.top)]
      && r.c.pools.Of(d.kind).slots[r.id.slot].setup == d
      && (forall x :: x != r.id ==> Live(r.c, x) == Live(c, x) && StateOf(r.c, x) == StateOf(c, x))
      && r.c.loaders == c.loaders && r.c.top == c.top
    ensures !R.Lookup(c.registry, d.locator).IsValid() && !ParkedOnCreate(c, d) ==>
      && StateOf(r.c, r.id) == f(d, data)
      && r.c.calls == c.calls + [SetupResource(r.id, d, data)]
      && r.c.pendingDrawStates == c.pendingDrawStates
    ensures !R.Lookup(c.registry, d.locator).IsValid() && ParkedOnCreate(c, d) ==>
      && StateOf(r.c, r.id) == Pending
      && r.c.calls == c.calls
      && r.c.pendingDrawStates == c.pendingDrawStates + [r.id]
  {
    var found := R.Lookup(c.registry, d.locator);
    if found.IsValid() then Created(c, found)
    else if ParkedOnCreate(c, d) then CreateParked(c, d)
    else CreateBuilt(c, d, data, f)
  }

  /** Creation on a registry miss when the factory runs. */
  function CreateBuilt(c: Container, d: Descriptor, data: Payload, f: Factory): (r: Created)
    requires Inv(c) && d.kind.Pooled()
    requires !R.Lookup(c.registry, d.locator).IsValid() && |c.pools.Of(d.kind).free| > 0
    ensures Inv(r.c)
    ensures r.id.kind == d.kind && !Live(c, r.id) && Live(r.c, r.id)
    ensures r.c.registry.entries == c.registry.entries + [R.Entry(d.locator, r.id, c.top)]
    ensures r.c.pools.Of(d.kind).slots[r.id.slot].setup == d
    ensures forall x :: x != r.id ==> Live(r.c, x) == Live(c, x) && StateOf(r.c, x) == StateOf(c, x)
    ensures r.c.loaders == c.loaders && r.c.top == c.top
    ensures StateOf(r.c, r.id) == f(d, data)
    ensures r.c.calls == c.calls + [SetupResource(r.id, d, data)]
    ensures r.c.pendingDrawStates == c.pendingDrawStates
  {
    var (p1, id) := P.AllocId(c.pools.Of(d.kind));
    FreshIdUnregistered(c, d.kind, id);
    var reg := R.Add(c.registry, d.locator, id, c.top);
    var p2 := P.Assign(p1, id, d, Setup);
    var c' := c.(pools := c.pools.With(d.kind, P.UpdateState(p2, id, f(d, data))), registry := reg,
                 calls := c.calls + [SetupResource(id, d, data)]);
    InstallKeepsInv(c, c', id, [R.Entry(d.locator, id, c.top)]);
    Created(c', id)
  }

  /** Creation on a registry miss of a draw state whose meshes are loading. */
  function CreateParked(c: Container, d: Descriptor): (r: Created)
    requires Inv(c) && d.kind == DrawState
    requires !R.Lookup(c.registry, d.locator).IsValid() && |c.pools.Of(d.kind).free| > 0
    ensures Inv(r.c)
    ensures r.id.kind == d.kind && !Live(c, r.id) && Live(r.c, r.id)
    ensures r.c.registry.entries == c.registry.entries + [R.Entry(d.locator, r.id, c.top)]
    ensures r.c.pools.Of(d.kind).slots[r.id.slot].setup == d
    ensures forall x :: x != r.id ==> Live(r.c, x) == Live(c, x) && StateOf(r.c, x) == StateOf(c, x)
    ensures r.c.loaders == c.loaders && r.c.top == c.top
    ensures StateOf(r.c, r.id) == Pending
    ensures r.c.calls == c.calls
    ensures r.c.pendingDrawStates == c.pendingDrawStates + [r.id]
  {
    var (p1, id) := P.AllocId(c.pools.Of(d.kind));
    FreshIdUnregistered(c, d.kind, id);
    var reg := R.Add(c.registry, d.locator, id, c.top);
    var p2 := P.Assign(p1, id, d, Setup);
    var c' := c.(pools := c.pools.With(d.kind, P.UpdateState(p2, id, Pending)), registry := reg,
                 pendingDrawStates := c.pendingDrawStates + [id]);
    InstallKeepsInv(c, c', id, [R.Entry(d.locator, id, c.top)]);
    Created(c', id)
  }

  /** A draw state whose meshes are still loading is parked on creation. */
  predicate ParkedOnCreate(c: Container, d: Descriptor)
    requires d.kind.Pooled()
  {
    d.kind == DrawState && DependencyState(c.pools.mesh, d.meshes) == Pending
  }

  /** The freshly allocated Id is not registered yet. */
  lemma FreshIdUnregistered(c: Container, t: ResType, id: Id)
    requires Inv(c) && t.Pooled() && id.kind == t && !P.Contains(c.pools.Of(t), id)
    ensures id.IsValid() && !R.Registered(c.registry, id)
  {
    forall i | 0 <= i < |c.registry.entries|
      ensures c.registry.entries[i].id != id
    {
      assert Live(c, c.registry.entries[i].id);
    }
  }

  /** Installing one new live, settled resource (and registering it) keeps
      the invariant. */
  lemma InstallKeepsInv(c: Container, c': Container, id: Id, added: seq<R.Entry>)
    requires Inv(c) && id.kind.Pooled() && !Live(c, id)
    requires PoolsValid(c'.pools) && R.Valid(c'.registry)
    requires Live(c', id) && c'.pools.Of(id.kind).slots[id.slot].state in {Pending, Valid, Failed}
    requires forall u: ResType :: u.Pooled() && u != id.kind ==> c'.pools.Of(u) == c.pools.Of(u)
    requires forall x :: x != id && P.Contains(c.pools.Of(id.kind), x) ==>
      P.Contains(c'.pools.Of(id.kind), x) && c'.pools.Of(id.kind).slots[x.slot] == c.pools.Of(id.kind).slots[x.slot]
    requires forall s :: s in c'.pools.Of(id.kind).slots ==> s in c.pools.Of(id.kind).slots || s == id.slot
    requires c'.registry.entries == c.registry.entries + added
    requires forall k :: 0 <= k < |added| ==> Live(c', added[k].id)
    requires c'.pendingDrawStates == c.pendingDrawStates || c'.pendingDrawStates == c.pendingDrawStates + [id]
    requires c'.pendingDrawStates != c.pendingDrawStates ==> id.kind == DrawState
    ensures Inv(c')
    ensures forall x :: x != id ==> Live(c', x) == Live(c, x) && StateOf(c', x) == StateOf(c, x)
  {
    var t := id.kind;
    var p, p' := c.pools.Of(t), c'.pools.Of(t);
    forall s | s in p'.slots
      ensures p'.slots[s].state in {Pending, Valid, Failed}
    {
      if s != id.slot {
        var x := p.slots[s].id;
        assert P.Contains(p, x) && x != id;
      }
    }
    forall x | x != id
      ensures Live(c', x) == Live(c, x) && StateOf(c', x) == StateOf(c, x)
    {
      if x.kind == t && P.Contains(p', x) {
        assert x.slot in p.slots && x.slot != id.slot;
        assert P.Contains(p, x);
      }
    }
  }

  /** Two creations from the same descriptor without a destruction in between
      share one Id, and the factory is called at most once. */
  lemma CreateTwiceSharesId(c: Container, d: Descriptor, data1: Payload, data2: Payload, f: Factory)
    requires Inv(c) && d.kind.Pooled()
    requires data1.Data? ==> d.kind.Async() && |data1.bytes| > 0
    requires data2.Data? ==> d.kind.Async() && |data2.bytes| > 0
    requires !R.Lookup(c.registry, d.locator).IsValid() ==> |c.pools.Of(d.kind).free| > 0
    ensures var r1 := Create(c, d, data1, f);
            var r2 := Create(r1.c, d, data2, f);
            && r2 == Created(r1.c, r1.id)
            && |r2.c.calls| <= |c.calls| + 1
  {
    var r1 := Create(c, d, data1, f);
    if !R.Lookup(c.registry, d.locator).IsValid() {
      R.LookupUnique(r1.c.registry, |c.registry.entries|);
    }
  }

  /** First phase of asynchronous creation (meshes and textures): a Pending
      slot is allocated and the locator registered at once, so that later
      requests for the locator share it; no factory runs. */
  function PrepareAsync(c: Container, d: Descriptor): (r: Created)
    requires Inv(c) && d.kind.Async()
    requires !R.Lookup(c.registry, d.locator).IsValid()
    requires |c.pools.Of(d.kind).free| > 0
    ensures Inv(r.c)
    ensures r.id.kind == d.kind && !Live(c, r.id) && Live(r.c, r.id)
    ensures StateOf(r.c, r.id) == Pending
    ensures R.Lookup(r.c.registry, d.locator) == r.id
    ensures r.c.registry.entries == c.registry.entries + [R.Entry(d.locator, r.id, c.top)]
    ensures r.c.calls == c.calls && r.c.pendingDrawStates == c.pendingDrawStates && r.c.loaders == c.loaders
    ensures forall x :: x != r.id ==> Live(r.c, x) == Live(c, x) && StateOf(r.c, x) == StateOf(c, x)
  {
    var (p1, id) := P.AllocId(c.pools.Of(d.kind));
    FreshIdUnregistered(c, d.kind, id);
    var reg := R.Add(c.registry, d.locator, id, c.top);
    var c' := c.(pools := c.pools.With(d.kind, P.Assign(p1, id, d, Pending)), registry := reg);
    InstallKeepsInv(c, c', id, [R.Entry(d.locator, id, c.top)]);
    Created(c', id)
  }

  /** Second phase, success: the data has arrived. If the prepared resource
      still exists the factory runs once and its result is stored and
      returned; if it was destroyed meanwhile, InvalidState is returned and
      nothing changes. */
  function InitAsync(c: Container, id: Id, d: Descriptor, data: Payload, f: Factory): (r: Completed)
    requires Inv(c) && d.kind.Async()
    ensures Inv(r.c)
    ensures !P.Contains(c.pools.Of(d.kind), id) ==> r == Completed(c, InvalidState)
    ensures P.Contains(c.pools.Of(d.kind), id) ==>
      && r.state == f(d, data) && StateOf(r.c, id) == r.state
      && r.c.pools.Of(d.kind).slots[id.slot].setup == d
      && r.c.calls == c.calls + [SetupResource(id, d, data)]
      && r.c == c.(pools := r.c.pools, calls := r.c.calls)
      && (forall u: ResType :: u.Pooled() && u != d.kind ==> r.c.pools.Of(u) == c.pools.Of(u))
      && (forall x :: Live(r.c, x) == Live(c, x))
      && (forall x :: x != id ==> StateOf(r.c, x) == StateOf(c, x))
  {
    var p := c.pools.Of(d.kind);
    if P.Contains(p, id) then
      var state := f(d, data);
      var p' := P.UpdateState(P.Assign(p, id, d, Pending), id, state);
      var c' := c.(pools := c.pools.With(d.kind, p'), calls := c.calls + [SetupResource(id, d, data)]);
      ReplaceKeepsInv(c, c', id);
      Completed(c', state)
    else
      Completed(c, InvalidState)
  }

  /** Second phase, failure: the external load failed. A resource that still
      exists is marked Failed; a destroyed one yields InvalidState. Only
      meshes and textures are created asynchronously; any other kind is a
      fatal error in the source. */
  function FailedAsync(c: Container, id: Id): (r: Completed)
    requires Inv(c) && id.kind.Async()
    ensures Inv(r.c)
    ensures !Live(c, id) ==> r == Completed(c, InvalidState)
    ensures Live(c, id) ==>
      && r.state == Failed && StateOf(r.c, id) == Failed
      && r.c == c.(pools := r.c.pools)
      && (forall u: ResType :: u.Pooled() && u != id.kind ==> r.c.pools.Of(u) == c.pools.Of(u))
      && (forall x :: Live(r.c, x) == Live(c, x))
      && (forall x :: x != id ==> StateOf(r.c, x) == StateOf(c, x))
  {
    var p := c.pools.Of(id.kind);
    if P.Contains(p, id) then
      var c' := c.(pools := c.pools.With(id.kind, P.UpdateState(p, id, Failed)));
      ReplaceKeepsInv(c, c', id);
      Completed(c', Failed)
    else
      Completed(c, InvalidState)
  }

  /** Rewriting one live resource in place with a settled state keeps the
      invariant and touches no other resource. */
  lemma ReplaceKeepsInv(c: Container, c': Container, id: Id)
    requires Inv(c) && Live(c, id)
    requires PoolsValid(c'.pools) && c'.registry == c.registry
    requires forall x :: x in c'.pendingDrawStates ==> x in c.pendingDrawStates
    requires Live(c', id) && c'.pools.Of(id.kind).slots[id.slot].state in {Pending, Valid, Failed}
    requires forall u: ResType :: u.Pooled() && u != id.kind ==> c'.pools.Of(u) == c.pools.Of(u)
    requires forall x :: Live(c', x) <==> Live(c, x)
    requires forall x :: x != id && P.Contains(c.pools.Of(id.kind), x) ==>
      P.Contains(c'.pools.Of(id.kind), x) && c'.pools.Of(id.kind).slots[x.slot] == c.pools.Of(id.kind).slots[x.slot]
    requires c'.pools.Of(id.kind).slots.Keys == c.pools.Of(id.kind).slots.Keys
    ensures Inv(c')
    ensures forall x :: x != id ==> Live(c', x) == Live(c, x) && StateOf(c', x) == StateOf(c, x)
  {
    var t := id.kind;
    var p, p' := c.pools.Of(t), c'.pools.Of(t);
    forall s | s in p'.slots
      ensures p'.slots[s].state in {Pending, Valid, Failed}
    {
      if s != id.slot {
        assert P.Contains(p, p.slots[s].id);
      }
    }
  }

  /** Starting a loader: a locator already registered yields its Id and no
      loader is added. Otherwise the loader joins the active set and its
      start routine prepares its resource asynchronously, so the locator is
      registered under a fresh Pending Id at once. */
  function Load(c: Container, loader: Loader): (r: Created)
    requires Inv(c) && loader.setup.kind.Async()
    requires !R.Lookup(c.registry, loader.setup.locator).IsValid() ==> |c.pools.Of(loader.setup.kind).free| > 0
    ensures Inv(r.c)
    ensures Live(r.c, r.id) && R.Lookup(r.c.registry, loader.setup.locator) == r.id
    ensures R.Lookup(c.registry, loader.setup.locator).IsValid() ==> r.c == c && Live(c, r.id)
    ensures !R.Lookup(c.registry, loader.setup.locator).IsValid() ==>
      && r.id.kind == loader.setup.kind && !Live(c, r.id) && StateOf(r.c, r.id) == Pending
      && r.c.loaders == c.loaders + [loader]
      && r.c.registry.entries == c.registry.entries + [R.Entry(loader.setup.locator, r.id, c.top)]
      && r.c.calls == c.calls
  {
    var found := R.Lookup(c.registry, loader.setup.locator);
    if found.IsValid() then Created(c, found)
    else
      var started := PrepareAsync(c, loader.setup);
      Created(started.c.(loaders := c.loaders + [loader]), started.id)
  }

  /** Loading a locator twice starts one loader: the second request returns
      the first one's Id and changes nothing. */
  lemma LoadTwiceSharesId(c: Container, first: Loader, second: Loader)
    requires Inv(c) && first.setup.kind.Async() && second.setup.kind.Async()
    requires second.setup.locator == first.setup.locator
    requires !R.Lookup(c.registry, first.setup.locator).IsValid() ==> |c.pools.Of(first.setup.kind).free| > 0
    ensures Load(Load(c, first).c, second) == Load(c, first)
    ensures |Load(c, first).c.loaders| <= |c.loaders| + 1
  {
  }
}
