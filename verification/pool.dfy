/** A fixed-capacity resource pool: a map from slot index to the resource
    held there, a queue of free slot indices and a pool-wide stamp counter
    that gives every allocated Id a stamp never used before. */
module Pool {
  import opened Handles

  datatype Slot = Slot(id: Id, state: ResState, setup: Descriptor)

  datatype Pool = Pool(kind: ResType, capacity: nat, slots: map<nat, Slot>, free: seq<nat>, nextStamp: nat)

  /** The pool's well-formedness: occupied slots hold Ids of this pool's
      kind at their own index with an already-issued stamp, and the free
      queue holds distinct in-range indices that are not occupied. */
  ghost predicate Valid(p: Pool) {
    && (forall s :: s in p.slots ==>
          && s < p.capacity
          && p.slots[s].id == Id(p.kind, s, p.slots[s].id.stamp)
          && p.slots[s].id.stamp < p.nextStamp)
    && (forall i :: 0 <= i < |p.free| ==> p.free[i] < p.capacity && p.free[i] !in p.slots)
    && (forall i, j :: 0 <= i < j < |p.free| ==> p.free[i] != p.free[j])
  }

  /** True only if the slot named by `id` holds exactly this Id. */
  predicate Contains(p: Pool, id: Id) {
    id.slot in p.slots && p.slots[id.slot].id == id
  }

  /** The state of a live resource, InvalidState for a stale or foreign Id. */
  function QueryState(p: Pool, id: Id): ResState {
    if Contains(p, id) then p.slots[id.slot].state else InvalidState
  }

  /** A fresh pool of the given kind with every slot free. */
  function NewPool(kind: ResType, capacity: nat): (p: Pool)
    ensures Valid(p) && p.kind == kind && |p.free| == capacity
    ensures forall id :: !Contains(p, id)
  {
    Pool(kind, capacity, map[], seq(capacity, i => i), 0)
  }

  /** Takes the first free slot and a fresh stamp. Running out of slots is a
      fatal error in the pool, hence the precondition. */
  function AllocId(p: Pool): (r: (Pool, Id))
    requires Valid(p)
    requires |p.free| > 0
    ensures Valid(r.0)
    ensures r.1 == Id(p.kind, p.free[0], p.nextStamp)
    ensures !Contains(p, r.1) && !Contains(r.0, r.1)
    ensures r.1.slot !in r.0.slots && r.1.slot !in r.0.free && r.1.stamp < r.0.nextStamp
    ensures r.0.slots == p.slots && r.0.free == p.free[1..] && r.0.kind == p.kind
    ensures forall id :: Contains(r.0, id) <==> Contains(p, id)
  {
    var id := Id(p.kind, p.free[0], p.nextStamp);
    (p.(free := p.free[1..], nextStamp := p.nextStamp + 1), id)
  }

  /** Stores a resource in the slot named by `id`. */
  function Assign(p: Pool, id: Id, setup: Descriptor, state: ResState): (p': Pool)
    requires Valid(p)
    requires id.kind == p.kind && id.slot < p.capacity && id.stamp < p.nextStamp
    requires id.slot !in p.free
    requires id.slot in p.slots ==> p.slots[id.slot].id == id
    ensures Valid(p')
    ensures Contains(p', id) && p'.slots[id.slot] == Slot(id, state, setup)
    ensures forall x :: x != id ==> (Contains(p', x) <==> Contains(p, x))
    ensures forall x :: x != id && Contains(p, x) ==> Contains(p', x) && p'.slots[x.slot] == p.slots[x.slot]
    ensures p'.kind == p.kind && p'.free == p.free && p'.nextStamp == p.nextStamp
  {
    p.(slots := p.slots[id.slot := Slot(id, state, setup)])
  }

  /** Changes the state of a live resource and nothing else. */
  function UpdateState(p: Pool, id: Id, state: ResState): (p': Pool)
    requires Valid(p) && Contains(p, id)
    ensures Valid(p')
    ensures Contains(p', id) && p'.slots[id.slot] == p.slots[id.slot].(state := state)
    ensures forall x :: Contains(p', x) <==> Contains(p, x)
    ensures forall x :: x != id && Contains(p, x) ==> Contains(p', x) && p'.slots[x.slot] == p.slots[x.slot]
    ensures p'.kind == p.kind && p'.free == p.free && p'.nextStamp == p.nextStamp
  {
    p.(slots := p.slots[id.slot := p.slots[id.slot].(state := state)])
  }

  /** Releases a live resource: its slot goes to the back of the free queue,
      and since stamps are never reissued the Id stays stale for good.
      A stale Id leaves the pool unchanged. */
  function Unassign(p: Pool, id: Id): (p': Pool)
    requires Valid(p)
    ensures Valid(p')
    ensures !Contains(p', id)
    ensures forall x :: x != id ==> (Contains(p', x) <==> Contains(p, x))
    ensures forall x :: x != id && Contains(p, x) ==> Contains(p', x) && p'.slots[x.slot] == p.slots[x.slot]
    ensures p'.kind == p.kind && p'.nextStamp == p.nextStamp
  {
    if Contains(p, id) then p.(slots := p.slots - {id.slot}, free := p.free + [id.slot]) else p
  }

  /** Generation-stamp uniqueness: once released, an Id is stale even when
      the very next allocation reuses its slot index. */
  lemma UnassignedIdStaysStale(p: Pool, id: Id, d: Descriptor, s: ResState)
    requires Valid(p) && Contains(p, id)
    ensures var (q, nid) := AllocId(Unassign(p, id));
            && !Contains(Assign(q, nid, d, s), id)
            && (|p.free| == 0 ==> nid.slot == id.slot)
  {
    var (q, nid) := AllocId(Unassign(p, id));
    assert nid.stamp == p.nextStamp && id.stamp < p.nextStamp;
  }
}
