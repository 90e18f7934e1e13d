/** The glasses of the station: the store with each glass's active volumes, the list the user interface shows, and the
    bridge that keeps both in step. */
module Glasses {
  import opened Options
  import opened Sequences
  import opened VolumeLists

  type GlassId = string

  /** Of a glass only the id and the active volumes take part. */
  datatype Glass = Glass(id: GlassId, activeVolumes: seq<real>)

  type Glasses = map<GlassId, seq<real>>

  ghost predicate AllIncreasing(glasses: Glasses) {
    forall id :: id in glasses ==> Increasing(glasses[id])
  }

  ghost predicate AllSorted(glasses: Glasses) {
    forall id :: id in glasses ==> NonDecreasing(glasses[id])
  }

  /** The volumes of the first given glass with this id. */
  function FirstGiven(given: seq<Glass>, id: GlassId): Option<seq<real>> {
    if given == [] then None
    else if given[0].id == id then Some(given[0].activeVolumes)
    else FirstGiven(given[1..], id)
  }

  /** The volumes of the last saved glass with this id. */
  function LastSaved(saved: seq<Glass>, id: GlassId): Option<seq<real>> {
    if saved == [] then None
    else if saved[|saved| - 1].id == id then Some(saved[|saved| - 1].activeVolumes)
    else LastSaved(saved[..|saved| - 1], id)
  }

  /** The volumes of a glass after loading: as an increasing list what was saved last, or else what there was. */
  ghost predicate IsLoaded(volumes: seq<real>, before: seq<real>, saved: seq<Glass>, id: GlassId) {
    match LastSaved(saved, id)
    case Some(v) => Increasing(volumes) && Elements(volumes) == Elements(v)
    case None => volumes == before
  }

  lemma {:induction false} FirstGivenOfOneMore(given: seq<Glass>, g: Glass, id: GlassId)
    ensures FirstGiven(given + [g], id)
            == if FirstGiven(given, id) == None && g.id == id then Some(g.activeVolumes) else FirstGiven(given, id)
  {
    if given != [] {
      FirstGivenOfOneMore(given[1..], g, id);
      assert (given + [g])[1..] == given[1..] + [g];
    }
  }

  lemma {:induction false} FirstGivenIsGiven(given: seq<Glass>, id: GlassId)
    ensures FirstGiven(given, id).Some? ==> exists g <- given :: g.activeVolumes == FirstGiven(given, id).value
    decreases |given|
  {
    if given != [] {
      FirstGivenIsGiven(given[1..], id);
      assert given == [given[0]] + given[1..];
    }
  }

  class GlassStore {
    var glasses: Glasses

    constructor ()
      ensures glasses == map[]
    {
      glasses := map[];
    }

    /** The first glass of an id is kept; then the saved volumes replace the given ones. */
    method InitGlasses(given: seq<Glass>, saved: seq<Glass>)
      modifies this
      ensures forall id :: id in glasses <==> FirstGiven(given, id).Some?
      ensures forall id :: id in glasses ==> IsLoaded(glasses[id], FirstGiven(given, id).value, saved, id)
      ensures (forall g <- given :: Increasing(g.activeVolumes)) ==> AllIncreasing(glasses)
    {
      glasses := map[];
      for i := 0 to |given|
        invariant forall id :: id in glasses <==> FirstGiven(given[..i], id).Some?
        invariant forall id :: id in glasses ==> glasses[id] == FirstGiven(given[..i], id).value
      {
        assert given[..i + 1] == given[..i] + [given[i]];
        forall id { FirstGivenOfOneMore(given[..i], given[i], id); }
        if given[i].id !in glasses {
          glasses := glasses[given[i].id := given[i].activeVolumes];
        }
      }
      assert given[..|given|] == given;
      LoadActiveVolumes(saved);
      if forall g <- given :: Increasing(g.activeVolumes) {
        forall id | id in glasses ensures Increasing(glasses[id]) {
          FirstGivenIsGiven(given, id);
        }
      }
    }

    /** Saved volumes are sorted and stripped of duplicates; those of unknown glasses are skipped. */
    method LoadActiveVolumes(saved: seq<Glass>)
      modifies this
      ensures glasses.Keys == old(glasses.Keys)
      ensures forall id :: id in glasses ==> IsLoaded(glasses[id], old(glasses)[id], saved, id)
    {
      for n := 0 to |saved|
        invariant glasses.Keys == old(glasses.Keys)
        invariant forall id :: id in glasses ==> IsLoaded(glasses[id], old(glasses)[id], saved[..n], id)
      {
        var entry := saved[n];
        assert saved[..n + 1][..n] == saved[..n];
        if entry.id in glasses {
          var volumes := SortedUnique(entry.activeVolumes);
          glasses := glasses[entry.id := volumes];
        }
      }
      assert saved[..|saved|] == saved;
    }

    method AddActiveVolume(id: GlassId, volume: real) returns (added: bool)
      modifies this
      ensures added <==> id in old(glasses) && CanInsert(old(glasses)[id], volume)
      ensures glasses == Added(old(glasses), id, volume)
    {
      if id in glasses {
        var volumes := glasses[id];
        var at := LowerBound(volumes, volume);
        if at == |volumes| || volumes[at] != volume {
          glasses := glasses[id := volumes[..at] + [volume] + volumes[at..]];
          return true;
        }
        assert glasses[id := volumes] == glasses;
      }
      return false;
    }

    method RemoveActiveVolume(id: GlassId, volume: real) returns (removed: bool)
      modifies this
      ensures removed <==> id in old(glasses) && volume in old(glasses)[id]
      ensures glasses == Removed(old(glasses), id, volume)
    {
      if id in glasses {
        var volumes := glasses[id];
        var at := Find(volumes, volume);
        if at < |volumes| {
          glasses := glasses[id := volumes[..at] + volumes[at + 1..]];
          return true;
        }
        assert glasses[id := volumes] == glasses;
      }
      return false;
    }
  }

  /** What the user can do. */
  datatype Callback =
    | ShowGlass(id: GlassId)
    | HideGlass(id: GlassId)
    | AddVolume(id: GlassId, volumeMl: int)
    | RemoveVolume(id: GlassId, volumeMl: int)

  function Added(glasses: Glasses, id: GlassId, volume: real): Glasses {
    if id in glasses then glasses[id := Inserted(glasses[id], volume)] else glasses
  }

  function Removed(glasses: Glasses, id: GlassId, volume: real): Glasses {
    if id in glasses then glasses[id := Erased(glasses[id], volume)] else glasses
  }

  function StoreAfter(glasses: Glasses, c: Callback): Glasses {
    match c
    case AddVolume(id, volumeMl) => Added(glasses, id, volumeMl as real)
    case RemoveVolume(id, volumeMl) => Removed(glasses, id, volumeMl as real)
    case _ => glasses
  }

  /** The ids on show after a callback. */
  function ShownAfter(glasses: Glasses, shown: seq<GlassId>, c: Callback): seq<GlassId> {
    match c
    case ShowGlass(id) => if id in glasses && id !in shown then shown + [id] else shown
    case HideGlass(id) => Filter(shown, Except(id))
    case _ => shown
  }

  lemma AddedIsSet(glasses: Glasses, id: GlassId, volume: real)
    requires AllIncreasing(glasses)
    ensures AllIncreasing(Added(glasses, id, volume))
    ensures id in glasses ==> Elements(Added(glasses, id, volume)[id]) == Elements(glasses[id]) + {volume}
  {
    if id in glasses {
      InsertedIsIncreasing(glasses[id], volume);
    }
  }

  lemma RemovedIsSet(glasses: Glasses, id: GlassId, volume: real)
    requires AllIncreasing(glasses)
    ensures AllIncreasing(Removed(glasses, id, volume))
    ensures id in glasses ==> Elements(Removed(glasses, id, volume)[id]) == Elements(glasses[id]) - {volume}
  {
  }

  /** A user interaction changes the active volumes of a glass as a set would: the list is always its sorted listing. */
  lemma VolumesAreSets(glasses: Glasses, c: Callback, id: GlassId)
    requires AllIncreasing(glasses) && id in glasses
    ensures AllIncreasing(StoreAfter(glasses, c)) && id in StoreAfter(glasses, c)
    ensures Elements(StoreAfter(glasses, c)[id])
            == if c.AddVolume? && c.id == id then Elements(glasses[id]) + {c.volumeMl as real}
               else if c.RemoveVolume? && c.id == id then Elements(glasses[id]) - {c.volumeMl as real}
               else Elements(glasses[id])
  {
    match c
    case AddVolume(_, volumeMl) => AddedIsSet(glasses, c.id, volumeMl as real);
    case RemoveVolume(_, volumeMl) => RemovedIsSet(glasses, c.id, volumeMl as real);
    case _ =>
  }

  /** What is shown for a list of volumes when a glass comes on show: its sorted version. */
  ghost predicate IsSortedFrom(shown: seq<real>, volumes: seq<real>) {
    && NonDecreasing(shown) && multiset(shown) == multiset(volumes)
    && (shown == volumes <==> NonDecreasing(volumes))
  }

  /** A list that is shown in another order than it has. */
  lemma UnsortedIsShownOtherwise(shown: seq<real>)
    requires IsSortedFrom(shown, [200.0, 100.0])
    ensures shown == [100.0, 200.0]
  {
    SortedIsUnique(shown, [100.0, 200.0]);
  }

  /** The volumes shown for one glass. */
  class VolumeModel {
    var volumes: seq<real>

    constructor (v: seq<real>)
      ensures IsSortedFrom(volumes, v)
    {
      var sorted := Sort(v);
      volumes := sorted;
      if NonDecreasing(v) {
        SortedIsUnique(v, sorted);
      }
    }

    method Add(volume: real)
      modifies this
      ensures volumes == Inserted(old(volumes), volume)
    {
      var at := LowerBound(volumes, volume);
      if at != |volumes| && volumes[at] == volume {
        return;
      }
      volumes := volumes[..at] + [volume] + volumes[at..];
    }

    method Remove(volume: real)
      modifies this
      ensures volumes == Erased(old(volumes), volume)
    {
      var at := Find(volumes, volume);
      if at == |volumes| {
        return;
      }
      volumes := volumes[..at] + volumes[at + 1..];
    }
  }

  datatype Entry = Entry(id: GlassId, model: VolumeModel)

  /** The glasses on show. */
  class GlassListModel {
    var entries: seq<Entry>

    constructor ()
      ensures entries == []
    {
      entries := [];
    }

    ghost function Ids(): seq<GlassId> reads this {
      IdsOf(entries)
    }

    ghost function Models(): set<VolumeModel> reads this {
      set e | e in entries :: e.model
    }

    /** Every glass is shown once and has a volume model of its own. */
    ghost predicate Valid() reads this {
      forall i, j | 0 <= i < j < |entries| :: entries[i].id != entries[j].id && entries[i].model != entries[j].model
    }

    /** Entries differ in everything or in nothing. */
    lemma EntriesDiffer(e: Entry, f: Entry)
      requires Valid() && e in entries && f in entries
      ensures e.id == f.id <==> e == f
      ensures e.model == f.model <==> e == f
    {
    }

    method FindIndex(id: GlassId) returns (i: nat)
      ensures i <= |entries| && (i < |entries| ==> entries[i].id == id)
      ensures forall j | 0 <= j < i :: entries[j].id != id
    {
      i := 0;
      while i < |entries| && entries[i].id != id
        invariant i <= |entries| && forall j | 0 <= j < i :: entries[j].id != id
      {
        i := i + 1;
      }
    }

    method Add(id: GlassId, volumes: seq<real>)
      requires Valid()
      modifies this
      ensures Valid() && fresh(Models() - old(Models()))
      ensures if id in old(Ids()) then entries == old(entries)
              else |entries| == |old(entries)| + 1 && entries[..|old(entries)|] == old(entries)
                   && entries[|old(entries)|].id == id && fresh(entries[|old(entries)|].model)
                   && IsSortedFrom(entries[|old(entries)|].model.volumes, volumes)
    {
      var at := FindIndex(id);
      if at < |entries| {
        assert Ids()[at] == id;
        return;
      }
      var model := new VolumeModel(volumes);
      entries := entries + [Entry(id, model)];
    }

    method Remove(id: GlassId)
      requires Valid()
      modifies this
      ensures Valid()
      ensures exists at :: 0 <= at <= |old(entries)| && IsRemoved(old(entries), at, id, entries)
    {
      var at := FindIndex(id);
      if at < |entries| {
        entries := entries[..at] + entries[at + 1..];
      }
      assert IsRemoved(old(entries), at, id, entries);
    }

    static ghost predicate IsRemoved(before: seq<Entry>, at: int, id: GlassId, after: seq<Entry>) {
      if 0 <= at < |before|
      then before[at].id == id && after == before[..at] + before[at + 1..]
      else (forall e <- before :: e.id != id) && after == before
    }

    method VolumeModelOf(id: GlassId) returns (model: VolumeModel?)
      ensures model == null ==> forall e <- entries :: e.id != id
      ensures model != null ==> Entry(id, model) in entries
    {
      var at := FindIndex(id);
      if at < |entries| {
        assert entries[at] == Entry(id, entries[at].model);
        return entries[at].model;
      }
      return null;
    }
  }

  function IdsOf(entries: seq<Entry>): seq<GlassId> {
    seq(|entries|, i requires 0 <= i < |entries| => entries[i].id)
  }

  lemma RemovedIds(before: seq<Entry>, at: nat, id: GlassId, after: seq<Entry>)
    requires at <= |before| && GlassListModel.IsRemoved(before, at, id, after)
    requires forall i, j | 0 <= i < j < |before| :: before[i].id != before[j].id
    ensures IdsOf(after) == Filter(IdsOf(before), Except(id))
    ensures forall e <- after :: e in before
  {
    var ids := IdsOf(before);
    assert at == |before| ==> forall j | 0 <= j < |before| :: before[j] in before;
    FilterOne(ids, Except(id), at);
    assert IdsOf(after) == WithoutPlace(ids, at);
  }

  class GlassContextBridge {
    const store: GlassStore
    const list: GlassListModel

    /** The mirror: every glass on show is in the store, and its own model shows exactly the store's volumes. */
    ghost predicate Valid() reads this, store, list, list.Models() {
      && list.Valid()
      && AllSorted(store.glasses)
      && forall e <- list.entries :: e.id in store.glasses && e.model.volumes == store.glasses[e.id]
    }

    /** Shows every glass that has active volumes, in whatever order the store lists them. Each shown list is the sorted
        version of the store's, and all is mirrored if and only if the store's lists are sorted. */
    constructor (store: GlassStore)
      ensures this.store == store && fresh(list) && fresh(list.Models()) && list.Valid()
      ensures forall id :: id in list.Ids() <==> id in store.glasses && store.glasses[id] != []
      ensures forall e <- list.entries :: e.id in store.glasses && IsSortedFrom(e.model.volumes, store.glasses[e.id])
      ensures Valid() <==> AllSorted(store.glasses)
    {
      this.store := store;
      this.list := new GlassListModel();
      new;
      var todo := store.glasses.Keys;
      while todo != {}
        invariant list.Valid() && todo <= store.glasses.Keys && fresh(list) && fresh(list.Models())
        invariant forall id :: id in list.Ids() <==> id in store.glasses && id !in todo && store.glasses[id] != []
        invariant forall e <- list.entries :: e.id in store.glasses && IsSortedFrom(e.model.volumes, store.glasses[e.id])
        decreases |todo|
      {
        var id :| id in todo;
        ghost var before := list.Ids();
        if store.glasses[id] != [] {
          list.Add(id, store.glasses[id]);
          assert list.Ids() == before + [id];
        }
        todo := todo - {id};
      }
    }

    method OnAddGlass(id: GlassId)
      requires Valid()
      modifies list
      ensures Valid() && fresh(list.Models() - old(list.Models()))
      ensures list.Ids() == ShownAfter(store.glasses, old(list.Ids()), ShowGlass(id))
    {
      if id in store.glasses {
        list.Add(id, store.glasses[id]);
      }
    }

    method OnRemoveGlass(id: GlassId)
      requires Valid()
      modifies list
      ensures Valid() && list.Models() <= old(list.Models())
      ensures list.Ids() == ShownAfter(store.glasses, old(list.Ids()), HideGlass(id))
    {
      ghost var entries := list.entries;
      list.Remove(id);
      ghost var at :| 0 <= at <= |entries| && GlassListModel.IsRemoved(entries, at, id, list.entries);
      RemovedIds(entries, at, id, list.entries);
      assert list.Ids() == IdsOf(list.entries);
    }

    method OnAddVolume(id: GlassId, volumeMl: int)
      requires Valid()
      modifies store, list.Models()
      ensures Valid()
      ensures store.glasses == StoreAfter(old(store.glasses), AddVolume(id, volumeMl))
    {
      StoreStaysSorted(store.glasses, AddVolume(id, volumeMl));
      var updated := store.AddActiveVolume(id, volumeMl as real);
      if updated {
        var model := list.VolumeModelOf(id);
        if model != null {
          model.Add(volumeMl as real);
          assert Entry(id, model) in list.entries;
        }
        forall e <- list.entries ensures e.model.volumes == store.glasses[e.id] {
          if model != null {
            list.EntriesDiffer(e, Entry(id, model));
          }
        }
      }
    }

    method OnRemoveVolume(id: GlassId, volumeMl: int)
      requires Valid()
      modifies store, list.Models()
      ensures Valid()
      ensures store.glasses == StoreAfter(old(store.glasses), RemoveVolume(id, volumeMl))
    {
      StoreStaysSorted(store.glasses, RemoveVolume(id, volumeMl));
      var updated := store.RemoveActiveVolume(id, volumeMl as real);
      if updated {
        var model := list.VolumeModelOf(id);
        if model != null {
          model.Remove(volumeMl as real);
          assert Entry(id, model) in list.entries;
        }
        forall e <- list.entries ensures e.model.volumes == store.glasses[e.id] {
          if model != null {
            list.EntriesDiffer(e, Entry(id, model));
          }
        }
      }
    }

    /** Any sequence of user interactions. */
    method Run(callbacks: seq<Callback>)
      requires Valid()
      modifies store, list, list.Models()
      ensures Valid()
      ensures Shown(store.glasses, list.Ids()) == AfterAll(Shown(old(store.glasses), old(list.Ids())), callbacks)
    {
      ghost var start := Shown(store.glasses, list.Ids());
      for i := 0 to |callbacks|
        invariant Valid() && fresh(list.Models() - old(list.Models()))
        invariant Shown(store.glasses, list.Ids()) == AfterAll(start, callbacks[..i])
      {
        assert callbacks[..i + 1][..i] == callbacks[..i];
        match callbacks[i]
        case ShowGlass(id) => OnAddGlass(id);
        case HideGlass(id) => OnRemoveGlass(id);
        case AddVolume(id, volumeMl) => OnAddVolume(id, volumeMl);
        case RemoveVolume(id, volumeMl) => OnRemoveVolume(id, volumeMl);
      }
      assert callbacks[..|callbacks|] == callbacks;
    }
  }

  /** The store's volumes and the ids on show. */
  datatype Shown = Shown(glasses: Glasses, ids: seq<GlassId>)

  function AfterAll(s: Shown, callbacks: seq<Callback>): Shown {
    if callbacks == [] then s
    else
      var before, c := AfterAll(s, callbacks[..|callbacks| - 1]), callbacks[|callbacks| - 1];
      Shown(StoreAfter(before.glasses, c), ShownAfter(before.glasses, before.ids, c))
  }

  lemma StoreStaysSorted(glasses: Glasses, c: Callback)
    requires AllSorted(glasses)
    ensures AllSorted(StoreAfter(glasses, c)) && StoreAfter(glasses, c).Keys == glasses.Keys
  {
    if (c.AddVolume? || c.RemoveVolume?) && c.id in glasses {
      InsertionIsInOrder(glasses[c.id], c.volumeMl as real, LowerBound(glasses[c.id], c.volumeMl as real));
      ErasedStaysSorted(glasses[c.id], c.volumeMl as real);
    }
  }

  /** Net effect on one list of volumes: the elements left are those whose last add or remove was an add. */
  function NetElements(start: set<real>, callbacks: seq<Callback>, id: GlassId): set<real> {
    if callbacks == [] then start
    else
      var before, c := NetElements(start, callbacks[..|callbacks| - 1], id), callbacks[|callbacks| - 1];
      if c.AddVolume? && c.id == id then before + {c.volumeMl as real}
      else if c.RemoveVolume? && c.id == id then before - {c.volumeMl as real}
      else before
  }

  /** After any sequence of interactions each list of active volumes is the increasing listing of a set: that of the
      volumes there at the start, with those last added and without those last removed. */
  lemma {:induction false} VolumesAfterAll(s: Shown, callbacks: seq<Callback>, id: GlassId)
    requires AllIncreasing(s.glasses) && id in s.glasses
    ensures var s' := AfterAll(s, callbacks);
            && AllIncreasing(s'.glasses) && id in s'.glasses
            && Elements(s'.glasses[id]) == NetElements(Elements(s.glasses[id]), callbacks, id)
    decreases |callbacks|
  {
    if callbacks != [] {
      var front := callbacks[..|callbacks| - 1];
      VolumesAfterAll(s, front, id);
      VolumesAreSets(AfterAll(s, front).glasses, callbacks[|callbacks| - 1], id);
    }
  }

  /** Whether a glass is on show, from the interactions alone: the last that shows or hides it decides. */
  predicate IsOnShow(atStart: bool, known: bool, callbacks: seq<Callback>, id: GlassId) {
    if callbacks == [] then atStart
    else
      var before, c := IsOnShow(atStart, known, callbacks[..|callbacks| - 1], id), callbacks[|callbacks| - 1];
      if c == HideGlass(id) then false else before || (c == ShowGlass(id) && known)
  }

  predicate Distinct(ids: seq<GlassId>) {
    forall i, j | 0 <= i < j < |ids| :: ids[i] != ids[j]
  }

  lemma HidingIsExact(ids: seq<GlassId>, gone: GlassId, id: GlassId)
    requires Distinct(ids)
    ensures id in Filter(ids, Except(gone)) <==> id in ids && id != gone
    ensures Distinct(Filter(ids, Except(gone)))
  {
    FilterMembers(ids, Except(gone), id);
    if gone in ids {
      var i: nat :| i < |ids| && ids[i] == gone;
      FilterOne(ids, Except(gone), i);
    } else {
      FilterOne(ids, Except(gone), |ids|);
    }
  }

  /** After any sequence of interactions a glass is in the list, once, exactly if it was there or is known and the last
      interaction that shows or hides it shows it; the store knows the same glasses throughout. */
  lemma {:induction false} ShownAfterAll(s: Shown, callbacks: seq<Callback>, id: GlassId)
    requires Distinct(s.ids)
    ensures var s' := AfterAll(s, callbacks);
            && s'.glasses.Keys == s.glasses.Keys
            && Distinct(s'.ids)
            && (id in s'.ids <==> IsOnShow(id in s.ids, id in s.glasses, callbacks, id))
    decreases |callbacks|
  {
    if callbacks != [] {
      var front, c := callbacks[..|callbacks| - 1], callbacks[|callbacks| - 1];
      ShownAfterAll(s, front, id);
      if c.HideGlass? {
        HidingIsExact(AfterAll(s, front).ids, c.id, id);
      }
    }
  }
}
