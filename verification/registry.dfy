/** The locator registry: which live resource a locator names, and under
    which label it was created. */
module Registry {
  import opened Handles

  datatype Entry = Entry(locator: Locator, id: Id, lbl: Label)

  datatype Registry = Registry(entries: seq<Entry>)

  /** Registered Ids are valid, and neither a locator nor an Id is
      registered twice. */
  ghost predicate Valid(r: Registry) {
    && (forall i :: 0 <= i < |r.entries| ==> r.entries[i].id.IsValid())
    && (forall i, j :: 0 <= i < j < |r.entries| ==> r.entries[i].locator != r.entries[j].locator)
    && (forall i, j :: 0 <= i < j < |r.entries| ==> r.entries[i].id != r.entries[j].id)
  }

  predicate Registered(r: Registry, id: Id) {
    exists i :: 0 <= i < |r.entries| && r.entries[i].id == id
  }

  /** The Id registered under `loc`, or InvalidId when there is none. */
  function Lookup(r: Registry, loc: Locator): (id: Id)
    requires Valid(r)
    ensures id.IsValid() <==> exists i :: 0 <= i < |r.entries| && r.entries[i].locator == loc
    ensures id.IsValid() ==> exists i :: 0 <= i < |r.entries| && r.entries[i] == Entry(loc, id, r.entries[i].lbl)
    ensures !id.IsValid() ==> id == InvalidId
  {
    LookupFrom(r.entries, loc)
  }

  function LookupFrom(es: seq<Entry>, loc: Locator): (id: Id)
    requires forall i :: 0 <= i < |es| ==> es[i].id.IsValid()
    ensures id.IsValid() <==> exists i :: 0 <= i < |es| && es[i].locator == loc
    ensures id.IsValid() ==> exists i :: 0 <= i < |es| && es[i].locator == loc && es[i].id == id
    ensures !id.IsValid() ==> id == InvalidId
  {
    if |es| == 0 then InvalidId
    else if es[0].locator == loc then es[0].id
    else
      var id := LookupFrom(es[1..], loc);
      assert forall i :: 0 <= i < |es| - 1 ==> es[1..][i] == es[i + 1];
      id
  }

  /** Registers a new locator. Adding a locator twice is a fatal error in the
      registry, so callers look it up first. */
  function Add(r: Registry, loc: Locator, id: Id, lbl: Label): (r': Registry)
    requires Valid(r) && id.IsValid()
    requires !Lookup(r, loc).IsValid()
    requires !Registered(r, id)
    ensures Valid(r')
    ensures Lookup(r', loc) == id
    ensures r'.entries == r.entries + [Entry(loc, id, lbl)]
  {
    var r' := Registry(r.entries + [Entry(loc, id, lbl)]);
    LookupUnique(r', |r.entries|);
    r'
  }

  /** In a valid registry, the lookup finds the one entry for its locator. */
  lemma LookupUnique(r: Registry, k: nat)
    requires Valid(r) && k < |r.entries|
    ensures Lookup(r, r.entries[k].locator) == r.entries[k].id
  {
  }

  /** The entries created under `lbl` or under any label pushed after it. */
  predicate Doomed(e: Entry, lbl: Label) {
    e.lbl >= lbl
  }

  /** Removes every entry whose label is `lbl` or later and returns their
      Ids, in registry order. */
  function Remove(r: Registry, lbl: Label): (out: (Registry, seq<Id>))
    requires Valid(r)
    ensures Valid(out.0)
    ensures forall e :: e in out.0.entries <==> e in r.entries && !Doomed(e, lbl)
    ensures forall id :: id in out.1 <==> exists e :: e in r.entries && Doomed(e, lbl) && e.id == id
    ensures forall i, j :: 0 <= i < j < |out.1| ==> out.1[i] != out.1[j]
    ensures forall id :: id in out.1 ==> !Registered(out.0, id)
  {
    var kept, ids := Kept(r.entries, lbl), DoomedIds(r.entries, lbl);
    KeptMembers(r.entries, lbl);
    DoomedMembers(r.entries, lbl);
    KeptValid(r.entries, lbl);
    DoomedDistinct(r.entries, lbl);
    forall id | id in ids
      ensures !Registered(Registry(kept), id)
    {
      var e :| e in r.entries && Doomed(e, lbl) && e.id == id;
      forall k | 0 <= k < |kept|
        ensures kept[k].id != id
      {
        assert kept[k] in r.entries && kept[k] != e;
        var a :| 0 <= a < |r.entries| && r.entries[a] == e;
        var b :| 0 <= b < |r.entries| && r.entries[b] == kept[k];
      }
    }
    (Registry(kept), ids)
  }

  /** The entries a removal keeps, in order. */
  function Kept(es: seq<Entry>, lbl: Label): seq<Entry> {
    if |es| == 0 then []
    else if Doomed(es[0], lbl) then Kept(es[1..], lbl)
    else [es[0]] + Kept(es[1..], lbl)
  }

  /** The Ids a removal releases, in order. */
  function DoomedIds(es: seq<Entry>, lbl: Label): seq<Id> {
    if |es| == 0 then []
    else if Doomed(es[0], lbl) then [es[0].id] + DoomedIds(es[1..], lbl)
    else DoomedIds(es[1..], lbl)
  }

  lemma {:induction false} KeptMembers(es: seq<Entry>, lbl: Label)
    ensures forall e :: e in Kept(es, lbl) <==> e in es && !Doomed(e, lbl)
  {
    if |es| > 0 {
      KeptMembers(es[1..], lbl);
      assert forall e :: e in es <==> e == es[0] || e in es[1..];
    }
  }

  lemma {:induction false} DoomedMembers(es: seq<Entry>, lbl: Label)
    ensures forall id :: id in DoomedIds(es, lbl) <==> exists e :: e in es && Doomed(e, lbl) && e.id == id
  {
    if |es| > 0 {
      DoomedMembers(es[1..], lbl);
      assert forall e :: e in es <==> e == es[0] || e in es[1..];
    }
  }

  lemma {:induction false} KeptValid(es: seq<Entry>, lbl: Label)
    requires Valid(Registry(es))
    ensures Valid(Registry(Kept(es, lbl)))
  {
    if |es| > 0 {
      KeptValid(es[1..], lbl);
      KeptMembers(es[1..], lbl);
      var tail := Kept(es[1..], lbl);
      forall k | 0 <= k < |tail|
        ensures tail[k].locator != es[0].locator && tail[k].id != es[0].id
      {
        assert tail[k] in es[1..];
        var j :| 0 <= j < |es[1..]| && es[1..][j] == tail[k];
        assert es[j + 1] == tail[k];
      }
    }
  }

  lemma {:induction false} DoomedDistinct(es: seq<Entry>, lbl: Label)
    requires Valid(Registry(es))
    ensures forall i, j :: 0 <= i < j < |DoomedIds(es, lbl)| ==> DoomedIds(es, lbl)[i] != DoomedIds(es, lbl)[j]
  {
    if |es| > 0 {
      DoomedDistinct(es[1..], lbl);
      DoomedMembers(es[1..], lbl);
      var tail := DoomedIds(es[1..], lbl);
      forall k | 0 <= k < |tail|
        ensures tail[k] != es[0].id
      {
        assert tail[k] in tail;
        var e :| e in es[1..] && Doomed(e, lbl) && e.id == tail[k];
        var j :| 0 <= j < |es[1..]| && es[1..][j] == e;
        assert es[j + 1] == e;
      }
    }
  }
}
