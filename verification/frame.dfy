/** The container's per-frame work and its bulk release: resolving parked
    draw states, polling loaders, and destroying everything created under a
    label. */
module Frame {
  import opened Handles
  import P = Pool
  import R = Registry
  import opened Container

  /** The setup a live draw state was created from. */
  function DrawSetup(ps: Pools, id: Id): Descriptor
    requires P.Contains(ps.drawState, id)
  {
    ps.drawState.slots[id.slot].setup
  }

  /** The dependency state a parked entry is found in; InvalidState for a
      draw state destroyed while it was parked. */
  function Resolution(ps: Pools, id: Id): ResState {
    if P.Contains(ps.drawState, id) then DependencyState(ps.mesh, DrawSetup(ps, id).meshes) else InvalidState
  }

  /** The entry stays parked: its draw state exists and a mesh still loads. */
  predicate StaysParked(ps: Pools, id: Id) {
    Resolution(ps, id) == Pending
  }

  /** The state a parked entry ends in: the factory's result once every mesh
      is Valid, Failed once a mesh is missing or Failed, unchanged otherwise. */
  function Resolved(ps: Pools, f: Factory, id: Id): ResState {
    match Resolution(ps, id)
    case Valid => f(DrawSetup(ps, id), NoData)
    case Failed => Failed
    case _ => P.QueryState(ps.drawState, id)
  }

  /** The factory call resolving one entry makes, if any. */
  function CallFor(ps: Pools, id: Id): seq<FactoryCall> {
    if Resolution(ps, id) == Valid then [SetupResource(id, DrawSetup(ps, id), NoData)] else []
  }

  /** The parked entries that stay parked, in their order. */
  function Parked(ps: Pools, s: seq<Id>): seq<Id> {
    if |s| == 0 then []
    else (if StaysParked(ps, s[0]) then [s[0]] else []) + Parked(ps, s[1..])
  }

  /** The factory calls for the entries of `s`, last entry first. */
  function ResolvedCalls(ps: Pools, s: seq<Id>): seq<FactoryCall> {
    if |s| == 0 then [] else ResolvedCalls(ps, s[1..]) + CallFor(ps, s[0])
  }

  /** What resolving parked entries leaves alone: the mesh pool, which draw
      states exist and the setups they were created from. */
  ghost predicate SameDependencies(a: Pools, b: Pools) {
    && a.mesh == b.mesh
    && (forall x :: P.Contains(a.drawState, x) <==> P.Contains(b.drawState, x))
    && (forall x :: P.Contains(a.drawState, x) ==> DrawSetup(a, x) == DrawSetup(b, x))
  }

  lemma SameDependenciesTrans(a: Pools, b: Pools, c: Pools)
    requires SameDependencies(a, b) && SameDependencies(b, c)
    ensures SameDependencies(a, c)
  {
  }

  lemma SameResolution(a: Pools, b: Pools, f: Factory, id: Id)
    requires SameDependencies(a, b)
    ensures Resolution(a, id) == Resolution(b, id)
    ensures CallFor(a, id) == CallFor(b, id)
    ensures Resolution(a, id) in {Valid, Failed} ==> Resolved(a, f, id) == Resolved(b, f, id)
  {
  }

  /** Handles parked entry `i`: a destroyed draw state is dropped, a still
      loading one stays, a resolved one is dropped and becomes either the
      factory's result (its meshes are all Valid) or Failed without a
      factory call. */
  function ResolveOne(c: Container, i: nat, f: Factory): (r: Container)
    requires Inv(c) && i < |c.pendingDrawStates|
    ensures Inv(r) && SameDependencies(c.pools, r.pools)
    ensures forall x :: Live(r, x) == Live(c, x)
    ensures r.registry == c.registry && r.loaders == c.loaders && r.top == c.top
    ensures r.pendingDrawStates ==
      if StaysParked(c.pools, c.pendingDrawStates[i]) then c.pendingDrawStates
      else c.pendingDrawStates[..i] + c.pendingDrawStates[i + 1..]
    ensures r.calls == c.calls + CallFor(c.pools, c.pendingDrawStates[i])
    ensures StateOf(r, c.pendingDrawStates[i]) ==
      if Resolution(c.pools, c.pendingDrawStates[i]) in {Valid, Failed} then Resolved(c.pools, f, c.pendingDrawStates[i])
      else StateOf(c, c.pendingDrawStates[i])
    ensures forall x :: x != c.pendingDrawStates[i] ==> StateOf(r, x) == StateOf(c, x)
  {
    var id := c.pendingDrawStates[i];
    var erased := c.pendingDrawStates[..i] + c.pendingDrawStates[i + 1..];
    assert forall x :: x in erased ==> x in c.pendingDrawStates;
    if !P.Contains(c.pools.drawState, id) then c.(pendingDrawStates := erased)
    else
      var state := DependencyState(c.pools.mesh, DrawSetup(c.pools, id).meshes);
      assert Settled(c.pools.Of(Mesh));
      if state == Pending then c
      else
        assert Live(c, id);
        var newState: ResState := if state == Valid then f(DrawSetup(c.pools, id), NoData) else Failed;
        var p := P.UpdateState(c.pools.drawState, id, newState);
        var r := c.(pools := c.pools.With(DrawState, p), pendingDrawStates := erased,
                    calls := c.calls + CallFor(c.pools, id));
        ReplaceKeepsInv(c, r, id);
        assert StateOf(r, id) == newState;
        r
  }

  /** The frame's pass over the parked draw states, last entry first, as the
      source walks its array: afterwards exactly the entries that still wait
      for a mesh remain, in order; each resolved entry got its final state;
      the factory ran once per entry whose meshes were all Valid. */
  method HandlePendingDrawStates(c: Container, f: Factory) returns (r: Container)
    requires Inv(c)
    ensures Inv(r) && SameDependencies(c.pools, r.pools)
    ensures forall x :: Live(r, x) == Live(c, x)
    ensures r.registry == c.registry && r.loaders == c.loaders && r.top == c.top
    ensures r.pendingDrawStates == Parked(c.pools, c.pendingDrawStates)
    ensures r.calls == c.calls + ResolvedCalls(c.pools, c.pendingDrawStates)
    ensures forall x :: StateOf(r, x) == if x in c.pendingDrawStates then Resolved(c.pools, f, x) else StateOf(c, x)
  {
    var s := c.pendingDrawStates;
    r := c;
    var i := |s|;
    while i > 0
      invariant 0 <= i <= |s|
      invariant Inv(r) && SameDependencies(c.pools, r.pools)
      invariant forall x :: Live(r, x) == Live(c, x)
      invariant r.registry == c.registry && r.loaders == c.loaders && r.top == c.top
      invariant r.pendingDrawStates == s[..i] + Parked(c.pools, s[i..])
      invariant r.calls == c.calls + ResolvedCalls(c.pools, s[i..])
      invariant forall x :: StateOf(r, x) == if x in s[i..] then Resolved(c.pools, f, x) else StateOf(c, x)
    {
      i := i - 1;
      SplitAt(s, i);
      assert r.pendingDrawStates == s[..i] + [s[i]] + Parked(c.pools, s[i + 1..]);
      var r' := ResolveOne(r, i, f);
      PassStep(c, r, r', f, s, i);
      r := r';
    }
  }

  /** The pass's bookkeeping survives one more entry. */
  lemma PassStep(c: Container, r: Container, r': Container, f: Factory, s: seq<Id>, i: nat)
    requires Inv(c) && s == c.pendingDrawStates && i < |s|
    requires SameDependencies(c.pools, r.pools) && SameDependencies(r.pools, r'.pools)
    requires r.pendingDrawStates == s[..i] + [s[i]] + Parked(c.pools, s[i + 1..])
    requires r.calls == c.calls + ResolvedCalls(c.pools, s[i + 1..])
    requires forall x :: StateOf(r, x) == if x in s[i + 1..] then Resolved(c.pools, f, x) else StateOf(c, x)
    requires r'.pendingDrawStates ==
      if StaysParked(r.pools, s[i]) then r.pendingDrawStates
      else r.pendingDrawStates[..i] + r.pendingDrawStates[i + 1..]
    requires r'.calls == r.calls + CallFor(r.pools, s[i])
    requires StateOf(r', s[i]) ==
      if Resolution(r.pools, s[i]) in {Valid, Failed} then Resolved(r.pools, f, s[i]) else StateOf(r, s[i])
    requires forall x :: x != s[i] ==> StateOf(r', x) == StateOf(r, x)
    ensures SameDependencies(c.pools, r'.pools)
    ensures r'.pendingDrawStates == s[..i] + Parked(c.pools, s[i..])
    ensures r'.calls == c.calls + ResolvedCalls(c.pools, s[i..])
    ensures forall x :: StateOf(r', x) == if x in s[i..] then Resolved(c.pools, f, x) else StateOf(c, x)
  {
    SameResolution(c.pools, r.pools, f, s[i]);
    SameDependenciesTrans(c.pools, r.pools, r'.pools);
    PendingStep(c.pools, r.pools, r.pendingDrawStates, r'.pendingDrawStates, s, i);
    CallsStep(c.pools, r.pools, c.calls, r.calls, r'.calls, s, i);
    StateStep(c, r, r', f, s, i);
  }

  lemma PendingStep(ps: Pools, qs: Pools, pend: seq<Id>, pend': seq<Id>, s: seq<Id>, i: nat)
    requires i < |s| && StaysParked(qs, s[i]) == StaysParked(ps, s[i])
    requires pend == s[..i] + [s[i]] + Parked(ps, s[i + 1..])
    requires pend' == if StaysParked(qs, s[i]) then pend else pend[..i] + pend[i + 1..]
    ensures pend' == s[..i] + Parked(ps, s[i..])
  {
    SplitAt(s, i);
    EraseAt(s[..i], s[i], Parked(ps, s[i + 1..]));
  }

  lemma CallsStep(ps: Pools, qs: Pools, calls0: seq<FactoryCall>, calls: seq<FactoryCall>, calls': seq<FactoryCall>,
                  s: seq<Id>, i: nat)
    requires i < |s| && CallFor(qs, s[i]) == CallFor(ps, s[i])
    requires calls == calls0 + ResolvedCalls(ps, s[i + 1..])
    requires calls' == calls + CallFor(qs, s[i])
    ensures calls' == calls0 + ResolvedCalls(ps, s[i..])
  {
    SplitAt(s, i);
  }

  /** Cutting a sequence at `i` into its prefix, the element and the rest. */
  lemma SplitAt<T>(s: seq<T>, i: nat)
    requires i < |s|
    ensures s[i..] == [s[i]] + s[i + 1..] && s[i..][1..] == s[i + 1..] && s[i..][0] == s[i]
  {
  }

  /** Erasing the element in the middle of `a + [x] + b`. */
  lemma EraseAt<T>(a: seq<T>, x: T, b: seq<T>)
    ensures (a + [x] + b)[|a|] == x
    ensures (a + [x] + b)[..|a|] + (a + [x] + b)[|a| + 1..] == a + b
  {
    var s := a + [x] + b;
    assert s[..|a|] == a;
    assert s[|a| + 1..] == b;
  }

  /** The state clause of the pass survives one more entry. */
  lemma StateStep(c: Container, r: Container, r': Container, f: Factory, s: seq<Id>, i: nat)
    requires Inv(c) && s == c.pendingDrawStates && i < |s|
    requires SameDependencies(c.pools, r.pools)
    requires forall x :: StateOf(r, x) == if x in s[i + 1..] then Resolved(c.pools, f, x) else StateOf(c, x)
    requires StateOf(r', s[i]) ==
      if Resolution(r.pools, s[i]) in {Valid, Failed} then Resolved(r.pools, f, s[i]) else StateOf(r, s[i])
    requires forall x :: x != s[i] ==> StateOf(r', x) == StateOf(r, x)
    ensures forall x :: StateOf(r', x) == if x in s[i..] then Resolved(c.pools, f, x) else StateOf(c, x)
  {
    var id := s[i];
    SameResolution(c.pools, r.pools, f, id);
    SplitAt(s, i);
    forall x
      ensures StateOf(r', x) == if x in s[i..] then Resolved(c.pools, f, x) else StateOf(c, x)
    {
      assert x in s[i..] <==> x == id || x in s[i + 1..];
    }
  }

  /** What a loader's poll does this frame: nothing yet, hand the arrived
      data to the second phase, or report that the load failed. */
  datatype Poll = StillLoading | Loaded(id: Id, setup: Descriptor, data: Payload) | LoadFailed(id: Id)
  {
    /** Only meshes and textures are created asynchronously. */
    predicate AsyncOnly() {
      match this
      case StillLoading => true
      case Loaded(_, setup, _) => setup.kind.Async()
      case LoadFailed(id) => id.kind.Async()
    }

    /** The poll completes the resource `x`. */
    predicate Completes(x: Id) {
      (Loaded? || LoadFailed?) && id == x
    }
  }

  type LoaderPoll = p: Poll | p.AsyncOnly() witness StillLoading

  /** One loader poll, carried out on the container: arrived data goes
      through InitAsync, a failed load through FailedAsync. The answer is
      Pending exactly while the loader is still loading. */
  function Continue(c: Container, poll: LoaderPoll, f: Factory): (r: Completed)
    requires Inv(c)
    ensures Inv(r.c)
    ensures r.state == Pending <==> poll == StillLoading
    ensures r.c == c.(pools := r.c.pools, calls := r.c.calls)
    ensures r.c.pools.drawState == c.pools.drawState
    ensures forall x :: Live(r.c, x) == Live(c, x)
    ensures forall x :: !poll.Completes(x) ==> StateOf(r.c, x) == StateOf(c, x)
    ensures poll.Loaded? && Live(c, poll.id) && poll.id.kind == poll.setup.kind ==> StateOf(r.c, poll.id) == f(poll.setup, poll.data)
    ensures poll.LoadFailed? && Live(c, poll.id) ==> StateOf(r.c, poll.id) == Failed
    ensures |c.calls| <= |r.c.calls| && r.c.calls[..|c.calls|] == c.calls
  {
    match poll
    case StillLoading => Completed(c, Pending)
    case Loaded(id, d, data) =>
      var r := InitAsync(c, id, d, data, f);
      assert r.c.pools.Of(DrawState) == c.pools.Of(DrawState);
      r
    case LoadFailed(id) =>
      var r := FailedAsync(c, id);
      assert r.c.pools.Of(DrawState) == c.pools.Of(DrawState);
      r
  }

  /** The container after polling the loaders of `ls`, last first. */
  function Polled(c: Container, ls: seq<Loader>, f: Factory, outcome: Loader -> LoaderPoll): (r: Container)
    requires Inv(c)
    ensures Inv(r)
    ensures r == c.(pools := r.pools, calls := r.calls)
    ensures r.pools.drawState == c.pools.drawState
    ensures forall x :: Live(r, x) == Live(c, x)
    ensures forall x :: (forall k :: 0 <= k < |ls| ==> !outcome(ls[k]).Completes(x)) ==> StateOf(r, x) == StateOf(c, x)
    ensures |c.calls| <= |r.calls| && r.calls[..|c.calls|] == c.calls
  {
    if |ls| == 0 then c
    else
      var q := Polled(c, ls[1..], f, outcome);
      var r := Continue(q, outcome(ls[0]), f).c;
      assert forall k :: 0 <= k < |ls| - 1 ==> ls[1..][k] == ls[k + 1];
      r
  }

  lemma PolledStep(c: Container, ls: seq<Loader>, i: nat, f: Factory, outcome: Loader -> LoaderPoll)
    requires Inv(c) && i < |ls|
    ensures Polled(c, ls[i..], f, outcome) == Continue(Polled(c, ls[i + 1..], f, outcome), outcome(ls[i]), f).c
    ensures Unfinished(ls[i..], outcome) == (if outcome(ls[i]) == StillLoading then [ls[i]] else []) + Unfinished(ls[i + 1..], outcome)
  {
    assert ls[i..][1..] == ls[i + 1..];
  }

  /** The loaders still in progress, in their order. */
  function Unfinished(ls: seq<Loader>, outcome: Loader -> LoaderPoll): seq<Loader> {
    if |ls| == 0 then []
    else (if outcome(ls[0]) == StillLoading then [ls[0]] else []) + Unfinished(ls[1..], outcome)
  }

  /** Polls every loader once, last first, as the source walks its array;
      each loader whose poll did not answer Pending is dropped. `outcome` is
      what each loader's poll does this frame. */
  method ContinueLoaders(c: Container, f: Factory, outcome: Loader -> LoaderPoll) returns (r: Container)
    requires Inv(c)
    ensures r == Polled(c, c.loaders, f, outcome).(loaders := Unfinished(c.loaders, outcome))
    ensures forall l :: l in r.loaders <==> l in c.loaders && outcome(l) == StillLoading
  {
    var ls := c.loaders;
    var kept := ls;
    var work := c;
    var i := |ls|;
    while i > 0
      invariant 0 <= i <= |ls|
      invariant kept == ls[..i] + Unfinished(ls[i..], outcome)
      invariant work == Polled(c, ls[i..], f, outcome)
    {
      i := i - 1;
      PolledStep(c, ls, i, f, outcome);
      var step := Continue(work, outcome(ls[i]), f);
      work := step.c;
      KeptStep(ls, i, kept, outcome);
      if step.state != Pending {
        kept := kept[..i] + kept[i + 1..];
      }
    }
    assert ls[0..] == ls;
    UnfinishedMembers(ls, outcome);
    r := work.(loaders := kept);
  }

  /** The kept loaders survive one more poll. */
  lemma KeptStep(ls: seq<Loader>, i: nat, kept: seq<Loader>, outcome: Loader -> LoaderPoll)
    requires i < |ls| && kept == ls[..i + 1] + Unfinished(ls[i + 1..], outcome)
    ensures outcome(ls[i]) == StillLoading ==> kept == ls[..i] + Unfinished(ls[i..], outcome)
    ensures outcome(ls[i]) != StillLoading ==> kept[..i] + kept[i + 1..] == ls[..i] + Unfinished(ls[i..], outcome)
  {
    assert ls[..i + 1] == ls[..i] + [ls[i]];
    assert ls[i..][1..] == ls[i + 1..];
    EraseAt(ls[..i], ls[i], Unfinished(ls[i + 1..], outcome));
  }

  lemma {:induction false} UnfinishedMembers(ls: seq<Loader>, outcome: Loader -> LoaderPoll)
    ensures forall l :: l in Unfinished(ls, outcome) <==> l in ls && outcome(l) == StillLoading
  {
    if |ls| > 0 {
      UnfinishedMembers(ls[1..], outcome);
      assert forall l :: l in ls <==> l == ls[0] || l in ls[1..];
    }
  }

  /** One frame: pool housekeeping (nothing observable here), then the
      loaders, whose completions change resource states, then the parked
      draw states, judged against the meshes as the loaders left them. */
  method Update(c: Container, f: Factory, outcome: Loader -> LoaderPoll) returns (r: Container)
    requires Inv(c)
    ensures Inv(r)
    ensures r.loaders == Unfinished(c.loaders, outcome)
    ensures r.registry == c.registry && r.top == c.top
    ensures forall x :: Live(r, x) == Live(c, x)
    ensures var p := Polled(c, c.loaders, f, outcome);
      && r.pendingDrawStates == Parked(p.pools, c.pendingDrawStates)
      && r.calls == p.calls + ResolvedCalls(p.pools, c.pendingDrawStates)
      && forall x :: StateOf(r, x) == if x in c.pendingDrawStates then Resolved(p.pools, f, x) else StateOf(p, x)
  {
    var polled := ContinueLoaders(c, f, outcome);
    r := HandlePendingDrawStates(polled, f);
  }

  /** Inside a valid container a mesh reference holds nothing back exactly
      when it is unused or names a Valid mesh. */
  lemma MeshOkByState(c: Container, m: Id)
    requires Inv(c)
    ensures MeshOk(c.pools.mesh, m) <==> !m.IsValid() || (m.kind == Mesh && StateOf(c, m) == Valid)
  {
    assert P.Valid(c.pools.Of(Mesh)) && c.pools.Of(Mesh).kind == Mesh;
  }

  /** Polling loaders whose only completion is the successful load of one
      mesh makes that mesh Valid and leaves every other state alone. */
  lemma {:induction false} PolledOneMesh(c: Container, ls: seq<Loader>, f: Factory, outcome: Loader -> LoaderPoll, l: Loader)
    requires Inv(c) && outcome(l).Loaded? && Live(c, outcome(l).id) && outcome(l).id.kind == outcome(l).setup.kind
    requires f(outcome(l).setup, outcome(l).data) == Valid
    requires forall k :: 0 <= k < |ls| ==> outcome(ls[k]) == StillLoading || ls[k] == l
    ensures l in ls ==> StateOf(Polled(c, ls, f, outcome), outcome(l).id) == Valid
    ensures forall x :: x != outcome(l).id ==> StateOf(Polled(c, ls, f, outcome), x) == StateOf(c, x)
  {
    if |ls| > 0 {
      var rest := ls[1..];
      assert forall k :: 0 <= k < |rest| ==> rest[k] == ls[k + 1];
      PolledOneMesh(c, rest, f, outcome, l);
      assert l in ls ==> ls[0] == l || l in rest;
    }
  }

  /** A mesh that finishes loading and a draw state parked on it resolve in
      the same frame: when the mesh was the draw state's last reference
      still holding it back, the draw state leaves the parked list through
      the factory in that frame's pass. */
  lemma SameFrameResolution(c: Container, f: Factory, outcome: Loader -> LoaderPoll, l: Loader, ds: Id)
    requires Inv(c) && P.Contains(c.pools.drawState, ds)
    requires l in c.loaders && outcome(l).Loaded? && Live(c, outcome(l).id)
    requires outcome(l).id.kind == outcome(l).setup.kind == Mesh
    requires f(outcome(l).setup, outcome(l).data) == Valid
    requires forall k :: 0 <= k < |c.loaders| ==> outcome(c.loaders[k]) == StillLoading || c.loaders[k] == l
    requires forall i :: 0 <= i < |DrawSetup(c.pools, ds).meshes| ==>
      DrawSetup(c.pools, ds).meshes[i] == outcome(l).id || MeshOk(c.pools.mesh, DrawSetup(c.pools, ds).meshes[i])
    ensures var p := Polled(c, c.loaders, f, outcome);
      && Resolution(p.pools, ds) == Valid && !StaysParked(p.pools, ds)
      && Resolved(p.pools, f, ds) == f(DrawSetup(c.pools, ds), NoData)
      && CallFor(p.pools, ds) == [SetupResource(ds, DrawSetup(c.pools, ds), NoData)]
  {
    var p := Polled(c, c.loaders, f, outcome);
    var m := outcome(l).id;
    var meshes := DrawSetup(c.pools, ds).meshes;
    PolledOneMesh(c, c.loaders, f, outcome, l);
    forall i | 0 <= i < |meshes|
      ensures MeshOk(p.pools.mesh, meshes[i])
    {
      MeshOkByState(c, meshes[i]);
      MeshOkByState(p, meshes[i]);
    }
    assert Settled(p.pools.Of(Mesh));
  }

  /** A draw state leaves the parked list only once no mesh holds it back:
      Valid only when every referenced mesh is Valid, Failed only when some
      mesh is missing or Failed. */
  lemma ResolvedOnlyWhenMeshesAre(c: Container, id: Id)
    requires Inv(c) && P.Contains(c.pools.drawState, id)
    ensures Resolution(c.pools, id) == Valid <==>
      forall i :: 0 <= i < |DrawSetup(c.pools, id).meshes| ==> MeshOk(c.pools.mesh, DrawSetup(c.pools, id).meshes[i])
    ensures Resolution(c.pools, id) == Failed ==>
      exists i :: 0 <= i < |DrawSetup(c.pools, id).meshes| && DrawSetup(c.pools, id).meshes[i].IsValid()
        && (!P.Contains(c.pools.mesh, DrawSetup(c.pools, id).meshes[i])
            || c.pools.mesh.slots[DrawSetup(c.pools, id).meshes[i].slot].state == Failed)
  {
    assert Settled(c.pools.Of(Mesh));
    FirstBlockerDecides(c.pools.mesh, DrawSetup(c.pools, id).meshes);
  }

  /** The factory destruction calls for the released Ids, in order: only
      for those that had reached Valid. */
  function DestroyCalls(c: Container, ids: seq<Id>): seq<FactoryCall> {
    if |ids| == 0 then []
    else
      var last := ids[|ids| - 1];
      DestroyCalls(c, ids[..|ids| - 1]) + (if StateOf(c, last) == Valid then [DestroyResource(last)] else [])
  }

  /** Releases one unregistered Id: the factory's destruction runs if it had
      reached Valid, then its slot is freed. */
  function DestroyOne(c: Container, id: Id): (r: Container)
    requires Inv(c) && id.kind.Pooled() && !R.Registered(c.registry, id)
    ensures Inv(r) && !Live(r, id)
    ensures forall x :: x != id ==> Live(r, x) == Live(c, x) && StateOf(r, x) == StateOf(c, x)
    ensures r.calls == c.calls + (if StateOf(c, id) == Valid then [DestroyResource(id)] else [])
    ensures r.registry == c.registry && r.pendingDrawStates == c.pendingDrawStates
    ensures r.loaders == c.loaders && r.top == c.top
  {
    var t := id.kind;
    var calls := c.calls + (if StateOf(c, id) == Valid then [DestroyResource(id)] else []);
    var r := c.(pools := c.pools.With(t, P.Unassign(c.pools.Of(t), id)), calls := calls);
    UnassignKeepsInv(c, r, id);
    r
  }

  lemma UnassignKeepsInv(c: Container, c': Container, id: Id)
    requires Inv(c) && id.kind.Pooled() && !R.Registered(c.registry, id)
    requires c'.pools == c.pools.With(id.kind, P.Unassign(c.pools.Of(id.kind), id))
    requires c'.registry == c.registry && c'.pendingDrawStates == c.pendingDrawStates
    ensures Inv(c') && !Live(c', id)
    ensures forall x :: x != id ==> Live(c', x) == Live(c, x) && StateOf(c', x) == StateOf(c, x)
  {
    var p, p' := c.pools.Of(id.kind), c'.pools.Of(id.kind);
    forall s | s in p'.slots
      ensures p'.slots[s].state in {Pending, Valid, Failed}
    {
      assert P.Contains(p, p'.slots[s].id);
    }
    forall i | 0 <= i < |c.registry.entries|
      ensures Live(c', c.registry.entries[i].id)
    {
      assert c.registry.entries[i].id != id;
    }
  }

  /** Releases everything registered under `lbl` or a later label: every
      such Id is unassigned from its pool, and the factory's destruction runs
      only for those that had reached Valid. Other resources are untouched. */
  method Destroy(c: Container, lbl: Label) returns (r: Container)
    requires Inv(c)
    ensures Inv(r)
    ensures r.registry == R.Remove(c.registry, lbl).0
    ensures forall id :: id in R.Remove(c.registry, lbl).1 ==> Live(c, id) && !Live(r, id)
    ensures forall x :: x !in R.Remove(c.registry, lbl).1 ==> Live(r, x) == Live(c, x) && StateOf(r, x) == StateOf(c, x)
    ensures r.calls == c.calls + DestroyCalls(c, R.Remove(c.registry, lbl).1)
    ensures r.pendingDrawStates == c.pendingDrawStates && r.loaders == c.loaders && r.top == c.top
  {
    var (kept, ids) := R.Remove(c.registry, lbl);
    r := Unregister(c, lbl);
    var n := 0;
    while n < |ids|
      invariant 0 <= n <= |ids|
      invariant Inv(r)
      invariant r.registry == kept
      invariant r.pendingDrawStates == c.pendingDrawStates && r.loaders == c.loaders && r.top == c.top
      invariant forall k :: 0 <= k < n ==> !Live(r, ids[k])
      invariant forall x :: x !in ids[..n] ==> Live(r, x) == Live(c, x) && StateOf(r, x) == StateOf(c, x)
      invariant r.calls == c.calls + DestroyCalls(c, ids[..n])
    {
      var r' := DestroyOne(r, ids[n]);
      DestroyStep(c, r, r', ids, n);
      r, n := r', n + 1;
    }
    assert ids[..|ids|] == ids;
  }

  /** The release loop's bookkeeping survives one more Id. */
  lemma DestroyStep(c: Container, r: Container, r': Container, ids: seq<Id>, n: nat)
    requires n < |ids| && forall i, j :: 0 <= i < j < |ids| ==> ids[i] != ids[j]
    requires forall k :: 0 <= k < n ==> !Live(r, ids[k])
    requires forall x :: x !in ids[..n] ==> Live(r, x) == Live(c, x) && StateOf(r, x) == StateOf(c, x)
    requires r.calls == c.calls + DestroyCalls(c, ids[..n])
    requires !Live(r', ids[n])
    requires forall x :: x != ids[n] ==> Live(r', x) == Live(r, x) && StateOf(r', x) == StateOf(r, x)
    requires r'.calls == r.calls + (if StateOf(r, ids[n]) == Valid then [DestroyResource(ids[n])] else [])
    ensures forall k :: 0 <= k < n + 1 ==> !Live(r', ids[k])
    ensures forall x :: x !in ids[..n + 1] ==> Live(r', x) == Live(c, x) && StateOf(r', x) == StateOf(c, x)
    ensures r'.calls == c.calls + DestroyCalls(c, ids[..n + 1])
  {
    var id := ids[n];
    assert id !in ids[..n];
    assert ids[..n + 1][..n] == ids[..n];
    forall x | x !in ids[..n + 1]
      ensures Live(r', x) == Live(c, x) && StateOf(r', x) == StateOf(c, x)
    {
      assert x !in ids[..n] && x != id;
    }
  }

  /** The first step of a release: the registry forgets the doomed entries,
      whose Ids are all live. */
  function Unregister(c: Container, lbl: Label): (r: Container)
    requires Inv(c)
    ensures Inv(r) && r == c.(registry := R.Remove(c.registry, lbl).0)
    ensures forall id :: id in R.Remove(c.registry, lbl).1 ==> Live(c, id) && id.kind.Pooled()
  {
    var (kept, ids) := R.Remove(c.registry, lbl);
    forall id | id in ids
      ensures Live(c, id)
    {
      var e :| e in c.registry.entries && R.Doomed(e, lbl) && e.id == id;
      var k :| 0 <= k < |c.registry.entries| && c.registry.entries[k] == e;
    }
    var r := c.(registry := kept);
    forall k | 0 <= k < |kept.entries|
      ensures Live(r, kept.entries[k].id)
    {
      var e := kept.entries[k];
      assert e in c.registry.entries;
      var j :| 0 <= j < |c.registry.entries| && c.registry.entries[j] == e;
    }
    r
  }

  /** Label scoping: resources created under `lbl` or a later label are
      gone, those created under an earlier label keep their registration and
      their state. */
  lemma DestroyRespectsLabels(c: Container, lbl: Label, r: Container, e: R.Entry)
    requires Inv(c) && e in c.registry.entries
    requires r.registry == R.Remove(c.registry, lbl).0
    requires forall id :: id in R.Remove(c.registry, lbl).1 ==> !Live(r, id)
    requires forall x :: x !in R.Remove(c.registry, lbl).1 ==> Live(r, x) == Live(c, x) && StateOf(r, x) == StateOf(c, x)
    ensures e.lbl >= lbl ==> !Live(r, e.id) && e !in r.registry.entries
    ensures e.lbl < lbl ==> Live(r, e.id) && e in r.registry.entries && StateOf(r, e.id) == StateOf(c, e.id)
  {
    var k :| 0 <= k < |c.registry.entries| && c.registry.entries[k] == e;
    assert Live(c, e.id);
  }

  /** Only released resources that had reached Valid are handed to the
      factory for destruction, and every one of them is. */
  lemma {:induction false} DestroyCallsOnlyValid(c: Container, ids: seq<Id>)
    ensures forall k :: 0 <= k < |DestroyCalls(c, ids)| ==>
      DestroyCalls(c, ids)[k].DestroyResource? && DestroyCalls(c, ids)[k].id in ids
      && StateOf(c, DestroyCalls(c, ids)[k].id) == Valid
    ensures forall id :: id in ids && StateOf(c, id) == Valid ==> DestroyResource(id) in DestroyCalls(c, ids)
  {
    if |ids| > 0 {
      var init := ids[..|ids| - 1];
      DestroyCallsOnlyValid(c, init);
      assert forall id :: id in ids <==> id in init || id == ids[|ids| - 1];
    }
  }
}
